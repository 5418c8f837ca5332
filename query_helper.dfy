/**
 * The advanced query helper: a wrapper around one query builder whose methods add
 * column-qualified selections, joins, searches and filters to it, and whose
 * pagination runs a count query and a page query against the database.
 *
 * The database is an oracle: `countOf` answers the raw count of a query (None when
 * it returns no row or an empty total) and `fetch` answers its rows.
 */
module QueryHelper {
  import opened Wrappers
  import opened Strings
  import opened Collections
  import opened QueryBuilder
  import CS = ConditionalSearch
  import JS = JsonSubQuery

  // ---------------------------------------------------------------- search

  /** The name of the i-th search parameter: `s_term_<i>_` and a suffix no other name has. */
  function SearchParam(i: nat, serial: nat): ParamName {
    Fresh("s_term_" + NatToString(i) + "_", serial + i)
  }

  function SearchMatch(col: string, p: ParamName, isPostgres: bool): Pred {
    if isPostgres then ILike(col, p) else LowerLike(col, p)
  }

  /** One match per field, in field order, each against its own parameter. */
  function SearchGroup(alias: string, fields: seq<string>, serial: nat, isPostgres: bool): seq<Pred> {
    seq(|fields|, i requires 0 <= i < |fields| => SearchMatch(Qualify(alias, fields[i]), SearchParam(i, serial), isPostgres))
  }

  /** The first `n` search parameters, all bound to the same pattern. */
  function SearchBindings(n: nat, serial: nat, v: Value): Bindings {
    if n == 0 then map[] else SearchBindings(n - 1, serial, v)[SearchParam(n - 1, serial) := v]
  }

  lemma SearchStep(q: Query, fields: seq<string>, i: nat, v: Value, isPostgres: bool)
    requires i < |fields|
    ensures SearchGroup(q.alias, fields, q.serial, isPostgres)[..i + 1]
         == SearchGroup(q.alias, fields, q.serial, isPostgres)[..i] + [SearchMatch(Qualify(q.alias, fields[i]), SearchParam(i, q.serial), isPostgres)]
    ensures q.params + SearchBindings(i + 1, q.serial, v) == (q.params + SearchBindings(i, q.serial, v))[SearchParam(i, q.serial) := v]
  {
  }

  /** `!keyword || !keyword.trim()`: an absent, empty or white-space keyword. */
  predicate BlankKeyword(keyword: Option<string>) {
    keyword.None? || Trim(keyword.value) == ""
  }

  function Search(q: Query, keyword: Option<string>, fields: seq<string>, isPostgres: bool): Query {
    if BlankKeyword(keyword) || |fields| == 0 then q
    else
      var v := CS.LikePattern(Trim(keyword.value), isPostgres);
      q.(wheres := q.wheres + [AnyOf(SearchGroup(q.alias, fields, q.serial, isPostgres))],
         params := q.params + SearchBindings(|fields|, q.serial, v),
         serial := q.serial + |fields|)
  }

  lemma {:induction false} SearchBindingsLookup(n: nat, serial: nat, v: Value)
    ensures forall p :: p in SearchBindings(n, serial, v) <==> exists i :: 0 <= i < n && p == SearchParam(i, serial)
    ensures forall p :: p in SearchBindings(n, serial, v) ==> SearchBindings(n, serial, v)[p] == v
  {
    if n > 0 {
      SearchBindingsLookup(n - 1, serial, v);
    }
  }

  /** `search` changes the query exactly when the keyword is not blank and some field is given. */
  lemma SearchNoOpIff(q: Query, keyword: Option<string>, fields: seq<string>, isPostgres: bool)
    ensures Search(q, keyword, fields, isPostgres) == q <==> BlankKeyword(keyword) || |fields| == 0
  {
    if !(BlankKeyword(keyword) || |fields| == 0) {
      assert |Search(q, keyword, fields, isPostgres).wheres| == |q.wheres| + 1;
    }
  }

  /**
   * Otherwise `search` adds one OR-group, one match per field in field order on the
   * qualified column, every match's parameter bound to `%trim(keyword)%`
   * (lower-cased outside Postgres), and it disturbs no parameter bound before.
   */
  lemma SearchAddsOneGroup(q: Query, keyword: Option<string>, fields: seq<string>, isPostgres: bool)
    requires ParamsFresh(q) && !BlankKeyword(keyword) && |fields| > 0
    ensures var r := Search(q, keyword, fields, isPostgres);
      && r.wheres[..|q.wheres|] == q.wheres && |r.wheres| == |q.wheres| + 1
      && var g := r.wheres[|q.wheres|];
      && g.AnyOf? && |g.alts| == |fields|
      && (forall i :: 0 <= i < |fields| ==>
            g.alts[i] == SearchMatch(Qualify(q.alias, fields[i]), SearchParam(i, q.serial), isPostgres)
            && SearchParam(i, q.serial) in r.params
            && r.params[SearchParam(i, q.serial)] == CS.LikePattern(Trim(keyword.value), isPostgres))
      && (forall p :: p in q.params ==> p in r.params && r.params[p] == q.params[p])
      && ParamsFresh(r)
  {
    var v := CS.LikePattern(Trim(keyword.value), isPostgres);
    SearchBindingsLookup(|fields|, q.serial, v);
    var r := Search(q, keyword, fields, isPostgres);
    forall p | p in q.params
      ensures p !in SearchBindings(|fields|, q.serial, v)
    {
      forall i | 0 <= i < |fields|
        ensures p != SearchParam(i, q.serial)
      {
      }
    }
    forall i | 0 <= i < |fields|
      ensures SearchParam(i, q.serial) in SearchBindings(|fields|, q.serial, v)
    {
    }
  }

  function SmartSearch(q: Query, keyword: Option<string>, branches: seq<CS.Branch>, isPostgres: bool): Query {
    if BlankKeyword(keyword) then q
    else AndWhere(q, CS.BranchesPred(q.alias, branches, isPostgres), CS.AllBindings(branches, Trim(keyword.value), isPostgres))
  }

  /** `smartSearch` changes the query exactly when the keyword is not blank, even with no branch. */
  lemma SmartSearchNoOpIff(q: Query, keyword: Option<string>, branches: seq<CS.Branch>, isPostgres: bool)
    ensures SmartSearch(q, keyword, branches, isPostgres) == q <==> BlankKeyword(keyword)
  {
    if !BlankKeyword(keyword) {
      assert |SmartSearch(q, keyword, branches, isPostgres).wheres| == |q.wheres| + 1;
    }
  }

  /**
   * For a keyword that is not blank `smartSearch` AND-s one condition after the
   * earlier ones: an OR with one alternative per declared branch, in declaration
   * order, each the branch's guard AND-ed with the OR of its field matches.
   */
  lemma SmartSearchAddsBranches(q: Query, keyword: Option<string>, branches: seq<CS.Branch>, isPostgres: bool)
    requires !BlankKeyword(keyword)
    ensures var r := SmartSearch(q, keyword, branches, isPostgres);
      && r.wheres[..|q.wheres|] == q.wheres && |r.wheres| == |q.wheres| + 1
      && var g := r.wheres[|q.wheres|];
      && g.AnyOf? && |g.alts| == |branches|
      && (forall i :: 0 <= i < |branches| ==> g.alts[i] == CS.BranchPred(q.alias, branches[i], isPostgres))
      && r.alias == q.alias && r.orderBys == q.orderBys && r.serial == q.serial
  {
    CS.BranchesInOrder(q.alias, branches, isPostgres);
  }

  // ---------------------------------------------------------------- filters

  /** `value !== undefined && value !== null && value !== ''`. */
  predicate Kept(v: Value) {
    v != Undefined && v != Null && v != Str("")
  }

  /** The name of an equality filter's parameter: `eq_` and the key with its first '.' made '_'. */
  function EqParam(key: string, serial: nat): ParamName {
    Fresh("eq_" + ReplaceFirst(key, '.', '_') + "_", serial)
  }

  /** One entry of `filter(object)`: a kept value adds `col = :p` with `p` fresh and bound to it. */
  function FilterEntry(q: Query, key: string, v: Value): (r: Query)
    ensures !Kept(v) ==> r == q
    ensures Kept(v) ==> && r.alias == q.alias && r.serial == q.serial + 1
                        && r.wheres == q.wheres + [Compare(Qualify(q.alias, key), Eq, EqParam(key, q.serial))]
                        && r.params == q.params[EqParam(key, q.serial) := v]
    ensures ParamsFresh(q) ==> ParamsFresh(r) && (Kept(v) ==> EqParam(key, q.serial) !in q.params)
  {
    if Kept(v) then
      var p := EqParam(key, q.serial);
      AndWhere(q, Compare(Qualify(q.alias, key), Eq, p), map[p := v]).(serial := q.serial + 1)
    else q
  }

  /** `filter(object)`: one equality per entry, in entry order. */
  function FilterEntries(q: Query, entries: seq<(string, Value)>): Query {
    if |entries| == 0 then q
    else
      var e := entries[|entries| - 1];
      FilterEntry(FilterEntries(q, entries[..|entries| - 1]), e.0, e.1)
  }

  /** The entries whose value is kept, in order. */
  function KeptEntries(entries: seq<(string, Value)>): seq<(string, Value)> {
    if |entries| == 0 then []
    else
      var e := entries[|entries| - 1];
      KeptEntries(entries[..|entries| - 1]) + (if Kept(e.1) then [e] else [])
  }

  /**
   * `filter(object)` adds exactly one `col = :p` per kept entry, in entry order, on
   * the qualified key, with `p` bound to that entry's value and kept so by every
   * later entry; the undefined, null and empty-string values add nothing.
   */
  lemma {:induction false} FilterAddsKept(q: Query, entries: seq<(string, Value)>)
    requires ParamsFresh(q)
    ensures AddsEqualities(q, FilterEntries(q, entries), KeptEntries(entries))
  {
    if |entries| > 0 {
      var init := entries[..|entries| - 1];
      var e := entries[|entries| - 1];
      FilterAddsKept(q, init);
      if Kept(e.1) {
        EqualityAdded(q, FilterEntries(q, init), KeptEntries(init), e);
      }
    }
  }

  /**
   * `r` is `q` with one `col = :p` per entry of `ks` added in order, on the
   * qualified key, with `p` a fresh name bound to that entry's value; the query's
   * earlier conditions and bindings stay.
   */
  ghost predicate AddsEqualities(q: Query, r: Query, ks: seq<(string, Value)>) {
    && r.alias == q.alias && ParamsFresh(r) && r.serial == q.serial + |ks|
    && |r.wheres| == |q.wheres| + |ks| && r.wheres[..|q.wheres|] == q.wheres
    && (forall p :: p in q.params ==> p in r.params && r.params[p] == q.params[p])
    && (forall i :: 0 <= i < |ks| ==>
          && r.wheres[|q.wheres| + i] == Compare(Qualify(q.alias, ks[i].0), Eq, EqParam(ks[i].0, q.serial + i))
          && EqParam(ks[i].0, q.serial + i) in r.params
          && r.params[EqParam(ks[i].0, q.serial + i)] == ks[i].1)
  }

  /** One more kept entry extends what the earlier entries added by its equality. */
  lemma EqualityAdded(q: Query, m: Query, ks: seq<(string, Value)>, e: (string, Value))
    requires ParamsFresh(q) && AddsEqualities(q, m, ks) && Kept(e.1)
    ensures AddsEqualities(q, FilterEntry(m, e.0, e.1), ks + [e])
  {
    var r := FilterEntry(m, e.0, e.1);
    EqualitiesExtended(q, m, r, ks, e);
    assert r.wheres[..|q.wheres|] == m.wheres[..|q.wheres|];
  }

  /** Adding one condition and one fresh binding keeps every equality added before and adds the new one. */
  lemma EqualitiesExtended(q: Query, m: Query, r: Query, ks: seq<(string, Value)>, e: (string, Value))
    requires AddsEqualities(q, m, ks) && EqParam(e.0, m.serial) !in m.params
    requires r.wheres == m.wheres + [Compare(Qualify(m.alias, e.0), Eq, EqParam(e.0, m.serial))]
    requires r.params == m.params[EqParam(e.0, m.serial) := e.1]
    ensures forall i :: 0 <= i < |ks + [e]| ==>
          && r.wheres[|q.wheres| + i] == Compare(Qualify(q.alias, (ks + [e])[i].0), Eq, EqParam((ks + [e])[i].0, q.serial + i))
          && EqParam((ks + [e])[i].0, q.serial + i) in r.params
          && r.params[EqParam((ks + [e])[i].0, q.serial + i)] == (ks + [e])[i].1
    ensures forall n :: n in q.params ==> n in r.params && r.params[n] == q.params[n]
  {
    var ks1 := ks + [e];
    forall i | 0 <= i < |ks1|
      ensures r.wheres[|q.wheres| + i] == Compare(Qualify(q.alias, ks1[i].0), Eq, EqParam(ks1[i].0, q.serial + i))
      ensures EqParam(ks1[i].0, q.serial + i) in r.params
      ensures r.params[EqParam(ks1[i].0, q.serial + i)] == ks1[i].1
    {
      if i < |ks| {
        assert ks1[i] == ks[i];
        assert EqParam(ks[i].0, q.serial + i) in m.params;
        assert r.wheres[|q.wheres| + i] == m.wheres[|q.wheres| + i];
      } else {
        assert ks1[i] == e;
      }
    }
  }

  /** `filter(object)` with no kept value leaves the query unchanged. */
  lemma {:induction false} FilterNothingKept(q: Query, entries: seq<(string, Value)>)
    requires forall i :: 0 <= i < |entries| ==> !Kept(entries[i].1)
    ensures FilterEntries(q, entries) == q
  {
    if |entries| > 0 {
      FilterNothingKept(q, entries[..|entries| - 1]);
    }
  }

  /** `filterIn(field, values)`: nothing for a missing or empty list, else one `IN` on a fresh name. */
  function FilterIn(q: Query, field: string, values: Option<seq<Value>>): Query {
    if values.None? || |values.value| == 0 then q
    else
      var p := Fresh("in_" + ReplaceFirst(field, '.', '_') + "_", q.serial);
      AndWhere(q, InList(Qualify(q.alias, field), p), map[p := List(values.value)]).(serial := q.serial + 1)
  }

  lemma FilterInNoOpIff(q: Query, field: string, values: Option<seq<Value>>)
    ensures FilterIn(q, field, values) == q <==> values.None? || |values.value| == 0
    ensures ParamsFresh(q) ==> ParamsFresh(FilterIn(q, field, values))
    ensures values.Some? && |values.value| > 0 ==>
      var r := FilterIn(q, field, values);
      && r.alias == q.alias
      && |r.wheres| == |q.wheres| + 1 && r.wheres[..|q.wheres|] == q.wheres
      && var w := r.wheres[|q.wheres|];
      && w.InList? && w.col == Qualify(q.alias, field)
      && w.param in r.params && r.params[w.param] == List(values.value)
      && (ParamsFresh(q) ==>
            && w.param !in q.params
            && forall p :: p in q.params ==> p in r.params && r.params[p] == q.params[p])
  {
    if !(values.None? || |values.value| == 0) {
      assert |FilterIn(q, field, values).wheres| == |q.wheres| + 1;
    }
  }

  /** The fixed names the range filter binds its bounds under. */
  function RangeParam(bound: string, field: string): ParamName {
    Named(bound + "_" + ReplaceFirst(field, '.', '_'))
  }

  /**
   * `filterRange(field, from, to)` as written: `col >= :gte_<field>` when `from` is
   * neither undefined nor null, then `col <= :lte_<field>` likewise for `to`. The
   * names carry no unique suffix.
   */
  function FilterRange(q: Query, field: string, from: Value, to: Value): Query {
    var col := Qualify(q.alias, field);
    var q1 := if IsNullish(from) then q
              else AndWhere(q, Compare(col, Gte, RangeParam("gte", field)), map[RangeParam("gte", field) := from]);
    if IsNullish(to) then q1
    else AndWhere(q1, Compare(col, Lte, RangeParam("lte", field)), map[RangeParam("lte", field) := to])
  }

  /**
   * What one range filter does as written: `>=` when `from` is given and `<=` when
   * `to` is, each under its fixed name, which takes the new value whether or not an
   * earlier call bound it already; every other parameter keeps its value.
   */
  lemma FilterRangeBindsFixedNames(q: Query, field: string, from: Value, to: Value)
    ensures var r := FilterRange(q, field, from, to);
      var col := Qualify(q.alias, field);
      var gte := RangeParam("gte", field);
      var lte := RangeParam("lte", field);
      && r.alias == q.alias && r.serial == q.serial
      && r.wheres == q.wheres + (if IsNullish(from) then [] else [Compare(col, Gte, gte)])
                              + (if IsNullish(to) then [] else [Compare(col, Lte, lte)])
      && (!IsNullish(from) ==> gte in r.params && r.params[gte] == from)
      && (!IsNullish(to) ==> lte in r.params && r.params[lte] == to)
      && (forall p :: p != gte && p != lte ==> (p in r.params <==> p in q.params) && (p in q.params ==> r.params[p] == q.params[p]))
  {
    var gte := RangeParam("gte", field);
    var lte := RangeParam("lte", field);
    assert gte.name[0] != lte.name[0];
  }

  /**
   * Two range filters on one field share their parameter names, so the second
   * call's lower bound replaces the first call's: both comparisons read 10, and the
   * stricter bound 20 of the first call is lost.
   */
  lemma FilterRangeSharedBound(q: Query)
    ensures var r := FilterRange(FilterRange(q, "price", Num(20), Null), "price", Num(10), Null);
      && r.wheres == q.wheres + [Compare(Qualify(q.alias, "price"), Gte, Named("gte_price")),
                                 Compare(Qualify(q.alias, "price"), Gte, Named("gte_price"))]
      && Named("gte_price") in r.params && r.params[Named("gte_price")] == Num(10)
  {
    assert IndexOf("price", '.') == -1;
    assert ReplaceFirst("price", '.', '_') == "price";
    var col := Qualify(q.alias, "price");
    var p := RangeParam("gte", "price");
    assert p == Named("gte_price");
    var q1 := FilterRange(q, "price", Num(20), Null);
    assert q1 == AndWhere(q, Compare(col, Gte, p), map[p := Num(20)]);
    assert q1.alias == q.alias;
    var r := FilterRange(q1, "price", Num(10), Null);
    assert r == AndWhere(q1, Compare(col, Gte, p), map[p := Num(10)]);
  }

  /** The range filter with a name of its own for every bound, as the other filters do. */
  function FilterRangeFresh(q: Query, field: string, from: Value, to: Value): Query {
    var col := Qualify(q.alias, field);
    var tag := ReplaceFirst(field, '.', '_') + "_";
    var q1 := if IsNullish(from) then q else BoundAdded(q, col, Gte, "gte_" + tag, from);
    if IsNullish(to) then q1 else BoundAdded(q1, col, Lte, "lte_" + tag, to)
  }

  /**
   * With fresh names, a range filter adds `>=` exactly when `from` is given and
   * `<=` exactly when `to` is, and every parameter bound before it (an earlier
   * range filter's bounds included) keeps its value.
   */
  lemma FilterRangeFreshKeepsBounds(q: Query, field: string, from: Value, to: Value)
    requires ParamsFresh(q)
    ensures var r := FilterRangeFresh(q, field, from, to);
      && ParamsFresh(r)
      && |r.wheres| == |q.wheres| + (if IsNullish(from) then 0 else 1) + (if IsNullish(to) then 0 else 1)
      && r.wheres[..|q.wheres|] == q.wheres
      && (forall p :: p in q.params ==> p in r.params && r.params[p] == q.params[p])
      && (!IsNullish(from) ==> r.wheres[|q.wheres|].op == Gte && r.params[r.wheres[|q.wheres|].param] == from)
      && (!IsNullish(to) ==> r.wheres[|r.wheres| - 1].op == Lte && r.params[r.wheres[|r.wheres| - 1].param] == to)
  {
    var col := Qualify(q.alias, field);
    var tag := ReplaceFirst(field, '.', '_') + "_";
    var q1 := if IsNullish(from) then q else BoundAdded(q, col, Gte, "gte_" + tag, from);
    var r := if IsNullish(to) then q1 else BoundAdded(q1, col, Lte, "lte_" + tag, to);
    if !IsNullish(from) {
      assert r.wheres[|q.wheres|] == q1.wheres[|q.wheres|];
    }
  }

  /**
   * One bound of a range filter: a comparison on a name no parameter has yet, bound
   * to the value; everything bound before keeps its value.
   */
  function BoundAdded(q: Query, col: string, op: CmpOp, prefix: string, v: Value): (r: Query)
    ensures r.alias == q.alias && r.serial == q.serial + 1
    ensures r.wheres == q.wheres + [Compare(col, op, Fresh(prefix, q.serial))]
    ensures r.params == q.params[Fresh(prefix, q.serial) := v]
    ensures ParamsFresh(q) ==> ParamsFresh(r) && Fresh(prefix, q.serial) !in q.params
  {
    AndWhere(q, Compare(col, op, Fresh(prefix, q.serial)), map[Fresh(prefix, q.serial) := v]).(serial := q.serial + 1)
  }

  /** Two fresh range filters on one field keep both lower bounds. */
  lemma FilterRangeFreshTwice(q: Query, field: string, a: Value, b: Value)
    requires ParamsFresh(q) && !IsNullish(a) && !IsNullish(b)
    ensures var r := FilterRangeFresh(FilterRangeFresh(q, field, a, Null), field, b, Null);
      && |r.wheres| == |q.wheres| + 2
      && r.params[r.wheres[|q.wheres|].param] == a
      && r.params[r.wheres[|q.wheres| + 1].param] == b
  {
    var q1 := FilterRangeFresh(q, field, a, Null);
    FilterRangeFreshKeepsBounds(q, field, a, Null);
    FilterRangeFreshKeepsBounds(q1, field, b, Null);
    assert q1.wheres[|q.wheres|].param in q1.params;
  }

  // ---------------------------------------------------------------- pagination

  /** A page or limit option after `Number(...)`: absent, not a number, or an integer. */
  datatype NumInput = Absent | NotANumber | Number(n: int)

  /** `Number(x) || d`: zero and NaN are falsy. */
  function NumberOr(x: NumInput, d: int): int {
    if x.Number? && x.n != 0 then x.n else d
  }

  /** `Math.max(1, Number(page) || 1)`. */
  function PageOf(x: NumInput): (p: int)
    ensures p >= 1
    ensures x.Number? && x.n >= 1 ==> p == x.n
    ensures !(x.Number? && x.n >= 1) ==> p == 1
  {
    var n := NumberOr(x, 1);
    if n > 1 then n else 1
  }

  /** `Number(limit) || 10`. It is never 0, so the no-limit branch can never be taken. */
  function LimitOf(x: NumInput): (l: int)
    ensures l != 0
    ensures x.Number? && x.n != 0 ==> l == x.n
    ensures !(x.Number? && x.n != 0) ==> l == 10
  {
    NumberOr(x, 10)
  }

  /** `Math.ceil(total / limit)` for a nonzero integer limit. */
  function CeilDiv(total: nat, limit: int): (r: int)
    requires limit != 0
    ensures limit > 0 ==> (r - 1) * limit < total <= r * limit
    ensures limit < 0 ==> r * limit <= total < (r - 1) * limit
  {
    if limit > 0 then (total + limit - 1) / limit else -(total / -limit)
  }

  /** With a positive limit, no rows give no page, and page `p` holds rows exactly when p <= totalPages. */
  lemma PagesCoverRows(total: nat, limit: int, p: int)
    requires limit > 0 && p >= 1
    ensures total == 0 <==> CeilDiv(total, limit) == 0
    ensures (p - 1) * limit < total <==> p <= CeilDiv(total, limit)
  {
    var r := CeilDiv(total, limit);
    if p <= r {
      assert (p - 1) * limit <= (r - 1) * limit;
    } else {
      assert (p - 1) * limit >= r * limit;
    }
    if r > 0 {
      assert r * limit >= limit;
    }
  }

  datatype PaginationOptions = PaginationOptions(page: NumInput, limit: NumInput, sort: Option<string>)

  datatype Meta = Meta(total: int, page: int, limit: int, totalPages: int)

  datatype Paginated<T> = Paginated(data: seq<T>, meta: Meta)

  /**
   * The ORDER BY entry of one `field:dir` token: none for an empty field, ASC when
   * the direction upper-cases to ASC, DESC for anything else or no direction.
   */
  function SortToken(alias: string, token: string): Option<OrderBy> {
    var parts := Split(token, ':');
    if parts[0] == "" then None
    else
      var asc := |parts| >= 2 && ToUpper(parts[1]) == "ASC";
      Some(OrderBy(Qualify(alias, parts[0]), if asc then Asc else Desc))
  }

  function ApplySortToken(q: Query, token: string): Query {
    match SortToken(q.alias, token)
    case None => q
    case Some(o) => AddOrder(q, o.expr, o.dir)
  }

  function ApplySortTokens(q: Query, tokens: seq<string>): Query {
    if |tokens| == 0 then q else ApplySortToken(ApplySortTokens(q, tokens[..|tokens| - 1]), tokens[|tokens| - 1])
  }

  /** The sorting step: the given tokens, or `createdAt DESC` when nothing orders the query yet. */
  function Sorted(q: Query, sort: Option<string>): Query {
    if sort.Some? && sort.value != "" then ApplySortTokens(q, Split(sort.value, ','))
    else if q.orderBys == [] then AddOrder(q, q.alias + ".createdAt", Desc)
    else q
  }

  /** The clone that counts: no selection but the distinct-id count, and no ORDER BY. */
  function CountQuery(q: Query): Query {
    q.(selects := [Aliased("COUNT(DISTINCT " + q.alias + ".id)", "total")], orderBys := [])
  }

  /** The page query and the result `getPaginated` returns. */
  function Paginate<T>(q: Query, options: PaginationOptions, countOf: Query -> Option<nat>, fetch: Query -> seq<T>)
    : (Query, Paginated<T>)
  {
    var page := PageOf(options.page);
    var limit := LimitOf(options.limit);
    var isNoLimit := limit == 0;
    var sorted := Sorted(q, options.sort);
    var total := countOf(CountQuery(sorted)).GetOr(0);
    var paged := if isNoLimit then sorted else sorted.(offset := Some((page - 1) * limit), limit := Some(limit));
    var meta := Meta(total, page, if isNoLimit then total else limit,
                     if isNoLimit || limit == 0 then 1 else CeilDiv(total, limit));
    (paged, Paginated(fetch(paged), meta))
  }

  /** A sort token touches only the ORDER BY entries. */
  lemma {:induction false} SortTouchesOnlyOrder(q: Query, tokens: seq<string>)
    ensures ApplySortTokens(q, tokens) == q.(orderBys := ApplySortTokens(q, tokens).orderBys)
  {
    if |tokens| > 0 {
      SortTouchesOnlyOrder(q, tokens[..|tokens| - 1]);
    }
  }

  /** The count keeps the filters of the page query: sorting never changes what is counted. */
  lemma CountIgnoresSort(q: Query, sort: Option<string>)
    ensures CountQuery(Sorted(q, sort)) == CountQuery(q)
  {
    if sort.Some? && sort.value != "" {
      SortTouchesOnlyOrder(q, Split(sort.value, ','));
    }
  }

  /**
   * The page `getPaginated` asks for: offset `(page - 1) * limit` and `limit` rows;
   * the count, a missing one read as 0; `totalPages` the ceiling of total over
   * limit; the no-limit branch never taken.
   */
  lemma PaginateMeta<T>(q: Query, options: PaginationOptions, countOf: Query -> Option<nat>, fetch: Query -> seq<T>)
    ensures var (paged, res) := Paginate(q, options, countOf, fetch);
      var page := PageOf(options.page);
      var limit := LimitOf(options.limit);
      && res.meta.total == countOf(CountQuery(q)).GetOr(0)
      && res.meta.page == page && res.meta.limit == limit
      && res.meta.totalPages == CeilDiv(res.meta.total, limit)
      && paged.offset == Some((page - 1) * limit) && paged.limit == Some(limit)
      && paged.wheres == q.wheres && paged.joins == q.joins && paged.params == q.params
      && res.data == fetch(paged)
  {
    CountIgnoresSort(q, options.sort);
    SortTouchesOnlyOrder(q, if options.sort.Some? then Split(options.sort.value, ',') else []);
  }

  /** The sort direction of a `field:dir` token. */
  lemma SortTokenDirection(alias: string, f: string, d: string)
    requires f != "" && ':' !in f && ':' !in d
    ensures SortToken(alias, f + ":" + d) == Some(OrderBy(Qualify(alias, f), if ToUpper(d) == "ASC" then Asc else Desc))
    ensures SortToken(alias, f) == Some(OrderBy(Qualify(alias, f), Desc))
  {
    SplitAfterPiece(f, d, ':');
    SplitNoSeparator(d, ':');
    SplitNoSeparator(f, ':');
    assert f + ":" + d == f + [':'] + d;
  }

  /** The ORDER BY entries a list of tokens asks for, in token order. */
  function TokenOrders(alias: string, tokens: seq<string>): seq<OrderBy> {
    if |tokens| == 0 then []
    else
      var t := SortToken(alias, tokens[|tokens| - 1]);
      TokenOrders(alias, tokens[..|tokens| - 1]) + (if t.Some? then [t.value] else [])
  }

  /**
   * On a query not ordered yet, tokens naming distinct columns are appended as the
   * tokens list them, the empty-field tokens skipped.
   */
  lemma {:induction false} SortAppendsInOrder(q: Query, tokens: seq<string>)
    requires q.orderBys == [] && Distinct(OrderKeys(TokenOrders(q.alias, tokens)))
    ensures ApplySortTokens(q, tokens).orderBys == TokenOrders(q.alias, tokens)
  {
    if |tokens| > 0 {
      var init := tokens[..|tokens| - 1];
      var before := TokenOrders(q.alias, init);
      var t := SortToken(q.alias, tokens[|tokens| - 1]);
      assert OrderKeys(before) == OrderKeys(TokenOrders(q.alias, tokens))[..|before|];
      SortAppendsInOrder(q, init);
      SortTouchesOnlyOrder(q, init);
      if t.Some? {
        var all := OrderKeys(TokenOrders(q.alias, tokens));
        assert all[|before|] == t.value.expr;
        assert t.value.expr !in OrderKeys(before);
      }
    }
  }

  // ---------------------------------------------------------------- the helper

  /** The sub-query a fresh `subQuery()` starts from. */
  const EmptySub := Query("", None, [], [], [], [], [], None, map[], None, None, 0)

  class AdvancedQueryHelper {
    var qb: Query
    const isPostgres: bool

    /** `from(repository, alias = 'root')`: a builder over the whole entity. */
    constructor FromRepository(entity: string, alias: string, driverType: string)
      ensures qb == FromEntity(entity, alias) && isPostgres == (DialectOf(driverType) == Postgres)
    {
      qb := FromEntity(entity, alias);
      isPostgres := driverType == "postgres" || driverType == "cockroachdb";
    }

    /** `from(builder)`: the builder the caller already made. */
    constructor FromBuilder(source: Query, driverType: string)
      ensures qb == source && isPostgres == (DialectOf(driverType) == Postgres)
    {
      qb := source;
      isPostgres := driverType == "postgres" || driverType == "cockroachdb";
    }

    function Columns(fields: seq<string>): (cs: seq<Selection>)
      reads this
      ensures |cs| == |fields| && forall i :: 0 <= i < |fields| ==> cs[i] == Column(Qualify(qb.alias, fields[i]))
    {
      seq(|fields|, i requires 0 <= i < |fields| reads this => Column(Qualify(qb.alias, fields[i])))
    }

    /** `select(fields)`: the qualified fields replace the selection. */
    method Select(fields: seq<string>)
      modifies this
      ensures qb == old(qb).(selects := old(Columns(fields)))
    {
      qb := qb.(selects := Columns(fields));
    }

    method AddSelect(fields: seq<string>)
      modifies this
      ensures qb == old(qb).(selects := old(qb.selects) + old(Columns(fields)))
    {
      qb := qb.(selects := qb.selects + Columns(fields));
    }

    method AddJoin(j: JoinClause, params: RawParams)
      modifies this
      ensures qb == old(qb).(joins := old(qb.joins) + [j], params := old(qb.params) + AsBindings(params))
    {
      qb := qb.(joins := qb.joins + [j], params := qb.params + AsBindings(params));
    }

    /** `joinRelation` and `leftJoinRelation`: the relation path is always `<alias>.<relation>`. */
    method JoinRelation(kind: JoinKind, relation: string, alias: string, condition: Option<(string, RawParams)>)
      modifies this
      ensures var c := if condition.Some? then Some(condition.value.0) else None;
              var ps := if condition.Some? then condition.value.1 else map[];
              qb == old(qb).(joins := old(qb.joins) + [JoinClause(kind, old(qb.alias) + "." + relation, alias, c, None, false, false)],
                             params := old(qb.params) + AsBindings(ps))
    {
      var c := if condition.Some? then Some(condition.value.0) else None;
      var ps := if condition.Some? then condition.value.1 else map[];
      AddJoin(JoinClause(kind, qb.alias + "." + relation, alias, c, None, false, false), ps);
    }

    /** `joinEntity` and `leftJoinEntity`. */
    method JoinEntity(kind: JoinKind, entity: string, alias: string, condition: string, params: RawParams)
      modifies this
      ensures qb == old(qb).(joins := old(qb.joins) + [JoinClause(kind, entity, alias, Some(condition), None, false, false)],
                             params := old(qb.params) + AsBindings(params))
    {
      AddJoin(JoinClause(kind, entity, alias, Some(condition), None, false, false), params);
    }

    /** `leftJoinAndMapOne` and `leftJoinAndMapMany`: the property mapped to is qualified. */
    method LeftJoinAndMap(many: bool, mapTo: string, entity: string, alias: string, condition: string, params: RawParams)
      modifies this
      ensures qb == old(qb).(joins := old(qb.joins) + [JoinClause(Left, entity, alias, Some(condition), Some(Qualify(old(qb.alias), mapTo)), many, true)],
                             params := old(qb.params) + AsBindings(params))
    {
      AddJoin(JoinClause(Left, entity, alias, Some(condition), Some(Qualify(qb.alias, mapTo)), many, true), params);
    }

    /** `leftJoinAndSelect` and `innerJoinAndSelect`: the property is passed as written. */
    method JoinAndSelect(kind: JoinKind, property: string, alias: string, condition: Option<string>, params: RawParams)
      modifies this
      ensures qb == old(qb).(joins := old(qb.joins) + [JoinClause(kind, property, alias, condition, None, false, true)],
                             params := old(qb.params) + AsBindings(params))
    {
      AddJoin(JoinClause(kind, property, alias, condition, None, false, true), params);
    }

    /**
     * `selectJsonArray(resultAlias, entity, alias, setup)`: the setup steps run on a
     * new JSON builder whose parent is this query, and its rendering is added as one
     * more selection under `resultAlias`, its parameters merged into this query's.
     */
    method SelectJsonArray(resultAlias: string, entity: string, alias: string, setup: seq<JS.Step>)
      modifies this
      ensures var r := JS.Effects(JS.Recorded([], [], [], [], None), setup, alias, old(qb.alias));
              var sub := JS.Render(r, entity, alias, EmptySub, isPostgres);
              qb == old(qb).(selects := old(qb.selects) + [SubSelect(sub, resultAlias)], params := old(qb.params) + sub.params)
    {
      var builder := new JS.JsonSubQueryBuilder(entity, alias, qb.alias);
      for i := 0 to |setup|
        invariant builder.State() == JS.Effects(JS.Recorded([], [], [], [], None), setup[..i], alias, qb.alias)
        invariant fresh(builder) && qb == old(qb)
        invariant builder.entity == entity && builder.alias == alias && builder.parentAlias == qb.alias
      {
        JS.SliceStep(setup, i);
        builder.Apply(setup[i]);
      }
      assert setup[..|setup|] == setup;
      var sub := builder.Build(EmptySub, if isPostgres then "postgres" else "mysql");
      qb := qb.(selects := qb.selects + [SubSelect(sub, resultAlias)], params := qb.params + sub.params);
    }

    /**
     * `mapOneWithSubQuery`: a left join mapped onto the qualified property, whose
     * condition requires the joined id to be among the sub-query's ids and then the
     * extra condition, if one is given. `subQuerySql` is the text the condition
     * builder renders for the sub-query.
     */
    method MapOneWithSubQuery(mapTo: string, entity: string, alias: string, subQuerySql: string,
                              extraCondition: Option<string>, params: RawParams)
      modifies this
      ensures var extra := if extraCondition.Some? && extraCondition.value != "" then " AND " + extraCondition.value else "";
              var cond := alias + ".id IN (" + subQuerySql + ")" + extra;
              qb == old(qb).(joins := old(qb.joins) + [JoinClause(Left, entity, alias, Some(cond), Some(Qualify(old(qb.alias), mapTo)), false, true)],
                             params := old(qb.params) + AsBindings(params))
    {
      var cond := alias + ".id IN (" + subQuerySql + ")";
      if extraCondition.Some? && extraCondition.value != "" {
        assert cond + " AND " + extraCondition.value == cond + (" AND " + extraCondition.value);
        cond := cond + " AND " + extraCondition.value;
      } else {
        assert cond == cond + "";
      }
      LeftJoinAndMap(false, mapTo, entity, alias, cond, params);
    }

    /** `selectSubQuery(alias, builder)`: `sub` is what the builder callback returns. */
    method SelectSubQuery(alias: string, sub: Query)
      modifies this
      ensures qb == old(qb).(selects := old(qb.selects) + [SubSelect(sub, alias)], params := old(qb.params) + sub.params)
    {
      qb := qb.(selects := qb.selects + [SubSelect(sub, alias)], params := qb.params + sub.params);
    }

    /** `search(keyword, fields)`. */
    method SearchFields(keyword: Option<string>, fields: seq<string>)
      modifies this
      ensures qb == Search(old(qb), keyword, fields, isPostgres)
    {
      if keyword.None? || Trim(keyword.value) == "" || |fields| == 0 {
        return;
      }
      var rawTerm := Trim(keyword.value);
      var likeTerm := "%" + rawTerm + "%";
      var v := if isPostgres then Str(likeTerm) else Str(ToLower(likeTerm));
      var alts, params, serial := SearchTerms(qb, fields, v, isPostgres);
      qb := qb.(wheres := qb.wheres + [AnyOf(alts)], params := params, serial := serial);
    }

    /** The loop of `search`: one match per field, each with its own fresh parameter bound to `v`. */
    static method SearchTerms(start: Query, fields: seq<string>, v: Value, isPostgres: bool)
      returns (alts: seq<Pred>, params: Bindings, serial: nat)
      ensures alts == SearchGroup(start.alias, fields, start.serial, isPostgres)
      ensures params == start.params + SearchBindings(|fields|, start.serial, v)
      ensures serial == start.serial + |fields|
    {
      alts := [];
      params := start.params;
      serial := start.serial;
      for i := 0 to |fields|
        invariant alts == SearchGroup(start.alias, fields, start.serial, isPostgres)[..i]
        invariant params == start.params + SearchBindings(i, start.serial, v) && serial == start.serial + i
      {
        SearchStep(start, fields, i, v, isPostgres);
        var col := Qualify(start.alias, fields[i]);
        var p := Fresh("s_term_" + NatToString(i) + "_", serial);
        if isPostgres {
          alts := alts + [ILike(col, p)];
        } else {
          alts := alts + [LowerLike(col, p)];
        }
        assert p == SearchParam(i, start.serial);
        params := params[p := v];
        serial := serial + 1;
      }
      assert alts == SearchGroup(start.alias, fields, start.serial, isPostgres)[..|fields|];
    }

    /** `smartSearch(keyword, setup)`: `setup` lists the branches the callback declares, in order. */
    method SmartSearchBranches(keyword: Option<string>, setup: seq<CS.Branch>)
      modifies this
      ensures qb == SmartSearch(old(qb), keyword, setup, isPostgres)
    {
      if keyword.None? || Trim(keyword.value) == "" {
        return;
      }
      var builder := new CS.ConditionalSearchBuilder(keyword.value, isPostgres);
      for i := 0 to |setup|
        invariant builder.branches == setup[..i] && fresh(builder) && qb == old(qb)
        invariant builder.searchTerm == keyword.value && builder.isPostgres == isPostgres
      {
        JS.SliceStep(setup, i);
        var b := setup[i];
        if b.isExact {
          builder.MatchExact(b.condition, b.params, b.fields);
        } else {
          builder.MatchCase(b.condition, b.params, b.fields);
        }
      }
      assert setup[..|setup|] == setup;
      var p, bindings := builder.Build(qb.alias);
      qb := AndWhere(qb, p, bindings);
    }

    /** `filter(condition, params)` with a condition string: AND-ed as written. */
    method FilterCondition(condition: string, params: RawParams)
      modifies this
      ensures qb == AndWhere(old(qb), Raw(condition), AsBindings(params))
    {
      qb := AndWhere(qb, Raw(condition), AsBindings(params));
    }

    /** `filter(object)`: `entries` is `Object.entries(object)`. */
    method FilterObject(entries: seq<(string, Value)>)
      modifies this
      ensures qb == FilterEntries(old(qb), entries)
    {
      var start := qb;
      for i := 0 to |entries|
        invariant qb == FilterEntries(start, entries[..i])
      {
        JS.SliceStep(entries, i);
        var (key, value) := entries[i];
        if value != Undefined && value != Null && value != Str("") {
          var field := Qualify(qb.alias, key);
          var p := Fresh("eq_" + ReplaceFirst(key, '.', '_') + "_", qb.serial);
          qb := AndWhere(qb, Compare(field, Eq, p), map[p := value]).(serial := qb.serial + 1);
        }
      }
      assert entries[..|entries|] == entries;
    }

    method FilterInValues(field: string, values: Option<seq<Value>>)
      modifies this
      ensures qb == FilterIn(old(qb), field, values)
    {
      qb := FilterIn(qb, field, values);
    }

    /** `filterRange(field, from, to)`: each given bound under its fixed name `gte_<field>` or `lte_<field>`. */
    method FilterRangeBounds(field: string, from: Value, to: Value)
      modifies this
      ensures qb == FilterRange(old(qb), field, from, to)
    {
      var fieldStr := Qualify(qb.alias, field);
      if from != Undefined && from != Null {
        var pName := RangeParam("gte", field);
        qb := AndWhere(qb, Compare(fieldStr, Gte, pName), map[pName := from]);
      }
      if to != Undefined && to != Null {
        var pName := RangeParam("lte", field);
        qb := AndWhere(qb, Compare(fieldStr, Lte, pName), map[pName := to]);
      }
    }

    method FilterIsNull(field: string)
      modifies this
      ensures qb == AndWhere(old(qb), IsNull(Qualify(old(qb.alias), field)), map[])
    {
      qb := AndWhere(qb, IsNull(Qualify(qb.alias, field)), map[]);
    }

    method FilterNotNull(field: string)
      modifies this
      ensures qb == AndWhere(old(qb), NotNull(Qualify(old(qb.alias), field)), map[])
    {
      qb := AndWhere(qb, NotNull(Qualify(qb.alias, field)), map[]);
    }

    method GroupBy(field: string)
      modifies this
      ensures qb == old(qb).(groupBys := old(qb.groupBys) + [Qualify(old(qb.alias), field)])
    {
      qb := qb.(groupBys := qb.groupBys + [Qualify(qb.alias, field)]);
    }

    /** `having(condition, params)` replaces any earlier HAVING. */
    method Having(condition: string, params: RawParams)
      modifies this
      ensures qb == old(qb).(having := Some(Raw(condition)), params := old(qb.params) + AsBindings(params))
    {
      qb := qb.(having := Some(Raw(condition)), params := qb.params + AsBindings(params));
    }

    /** `getOne()`: the first row the query returns, if any. */
    method GetOne<T>(fetch: Query -> seq<T>) returns (r: Option<T>)
      ensures r.None? <==> |fetch(qb)| == 0
      ensures r.Some? ==> r.value == fetch(qb)[0]
    {
      var rows := fetch(qb);
      r := if |rows| > 0 then Some(rows[0]) else None;
    }

    /** `getPaginated(options)`. */
    method GetPaginated<T>(options: PaginationOptions, countOf: Query -> Option<nat>, fetch: Query -> seq<T>)
      returns (res: Paginated<T>)
      modifies this
      ensures (qb, res) == Paginate(old(qb), options, countOf, fetch)
    {
      var page := NumberOr(options.page, 1);
      if page < 1 {
        page := 1;
      }
      var limit := NumberOr(options.limit, 10);
      var isNoLimit := limit == 0;
      if options.sort.Some? && options.sort.value != "" {
        var tokens := Split(options.sort.value, ',');
        var start := qb;
        for i := 0 to |tokens|
          invariant qb == ApplySortTokens(start, tokens[..i])
        {
          JS.SliceStep(tokens, i);
          var parts := Split(tokens[i], ':');
          var f := parts[0];
          if f != "" {
            var col := Qualify(qb.alias, f);
            var dir := if |parts| >= 2 && ToUpper(parts[1]) == "ASC" then Asc else Desc;
            qb := AddOrder(qb, col, dir);
          }
        }
        assert tokens[..|tokens|] == tokens;
      } else if |qb.orderBys| == 0 {
        qb := AddOrder(qb, qb.alias + ".createdAt", Desc);
      }
      var countQuery := CountQuery(qb);
      var countResult := countOf(countQuery);
      var total := if countResult.Some? then countResult.value else 0;
      if !isNoLimit {
        qb := qb.(offset := Some((page - 1) * limit), limit := Some(limit));
      }
      var data := fetch(qb);
      res := Paginated(data, Meta(total, page, if isNoLimit then total else limit,
                                  if isNoLimit || limit == 0 then 1 else CeilDiv(total, limit)));
    }
  }
}
