/**
 * The compact filter language of list endpoints: a filter string is a
 * comma-separated list of rules `key:operator:value`, each of which becomes one
 * more conjunct of the query.
 */
module QueryUtil {
  import opened Wrappers
  import opened Strings
  import opened QueryBuilder

  /** Keys a caller maps to column expressions of its own. */
  type FilterMapping = map<string, string>

  datatype Rule = Rule(key: string, op: string, value: string)

  /**
   * One rule: the key before the first ':', the operator before the second, and
   * everything after it (further colons included) as the value; a rule with fewer
   * than two colons is no rule.
   */
  function ParseRule(rule: string): (r: Option<Rule>)
    ensures r.Some? ==> ':' !in r.value.key && ':' !in r.value.op
  {
    var parts := Split(rule, ':');
    if |parts| < 3 then None else Some(Rule(parts[0], parts[1], Join(parts[2..], ":")))
  }

  /** A rule parses exactly when it holds two colons, and its pieces joined back with ':' are the rule. */
  lemma ParseRuleRoundTrip(rule: string)
    ensures ParseRule(rule).Some? <==> exists i, j :: 0 <= i < j < |rule| && rule[i] == ':' && rule[j] == ':'
    ensures ParseRule(rule).Some? ==>
      var r := ParseRule(rule).value; r.key + ":" + r.op + ":" + r.value == rule
  {
    var parts := Split(rule, ':');
    JoinSplit(rule, ':');
    if |parts| >= 3 {
      assert Join(parts, ":") == parts[0] + ":" + Join(parts[1..], ":");
      assert Join(parts[1..], ":") == parts[1] + ":" + Join(parts[2..], ":");
      var i := |parts[0]|;
      var j := |parts[0]| + 1 + |parts[1]|;
      assert rule == parts[0] + ":" + parts[1] + ":" + Join(parts[2..], ":");
      assert rule[i] == ':' && rule[j] == ':';
    } else if exists i, j :: 0 <= i < j < |rule| && rule[i] == ':' && rule[j] == ':' {
      var i, j :| 0 <= i < j < |rule| && rule[i] == ':' && rule[j] == ':';
      TwoColonsSplitThree(rule, i, j);
      assert false;
    }
  }

  lemma TwoColonsSplitThree(rule: string, i: nat, j: nat)
    requires i < j < |rule| && rule[i] == ':' && rule[j] == ':'
    ensures |Split(rule, ':')| >= 3
  {
    var k := IndexOf(rule, ':');
    assert rule == rule[..k] + [':'] + rule[k + 1..];
    SplitAfterPiece(rule[..k], rule[k + 1..], ':');
    assert k <= i;
    assert rule[k + 1..][j - k - 1] == ':';
    SplitHasSeparator(rule[k + 1..], ':');
  }

  /**
   * The column a key filters: the caller's mapping when it maps the key to a
   * non-empty expression, the key itself when it is already dotted, otherwise the
   * key under the default alias.
   */
  function ResolveColumn(mapping: FilterMapping, key: string, defaultAlias: string): (col: string)
    ensures key in mapping && mapping[key] != "" ==> col == mapping[key]
    ensures !(key in mapping && mapping[key] != "") ==> '.' in col && col == Qualify(defaultAlias, key)
  {
    if key in mapping && mapping[key] != "" then mapping[key]
    else if '.' in key then key
    else defaultAlias + "." + key
  }

  /** The condition an operator names; an unknown operator means equality. */
  function RuleCondition(op: string, col: string, p: ParamName): (c: Pred)
    ensures op == "like" ==> c == ILike(col, p)
    ensures op == "in" ==> c == InList(col, p)
    ensures op !in {"neq", "gt", "gte", "lt", "lte", "like", "in"} ==> c == Compare(col, Eq, p)
  {
    match op
    case "eq" => Compare(col, Eq, p)
    case "neq" => Compare(col, Neq, p)
    case "gt" => Compare(col, Gt, p)
    case "gte" => Compare(col, Gte, p)
    case "lt" => Compare(col, Lt, p)
    case "lte" => Compare(col, Lte, p)
    case "like" => ILike(col, p)
    case "in" => InList(col, p)
    case _ => Compare(col, Eq, p)
  }

  function Strs(ss: seq<string>): (vs: seq<Value>)
    ensures |vs| == |ss| && forall i :: 0 <= i < |ss| ==> vs[i] == Str(ss[i])
  {
    seq(|ss|, i requires 0 <= i < |ss| => Str(ss[i]))
  }

  /**
   * The value bound for a rule: `%value%` for `like`, the '|'-separated pieces for
   * `in`, and the value as it is for every other operator.
   */
  function RuleValue(rule: Rule): (v: Value)
    ensures rule.op == "like" ==> v == Str("%" + rule.value + "%")
    ensures rule.op != "like" && rule.op != "in" ==> v == Str(rule.value)
  {
    if rule.op == "like" then Str("%" + rule.value + "%")
    else if rule.op == "in" then List(Strs(Split(rule.value, '|')))
    else Str(rule.value)
  }

  /** An `in` rule binds at least one piece, none holding a '|', and joining them with '|' gives back the value. */
  lemma InValuePieces(rule: Rule)
    requires rule.op == "in"
    ensures var v := RuleValue(rule);
      && v.List? && |v.items| >= 1
      && (forall i :: 0 <= i < |v.items| ==> v.items[i].Str? && '|' !in v.items[i].s)
      && Join(seq(|v.items|, i requires 0 <= i < |v.items| => v.items[i].s), "|") == rule.value
  {
    var pieces := Split(rule.value, '|');
    JoinSplit(rule.value, '|');
    var v := RuleValue(rule);
    assert seq(|v.items|, i requires 0 <= i < |v.items| => v.items[i].s) == pieces;
  }

  /** The parameter name of a rule: the key with a unique suffix. */
  function RuleParam(key: string, serial: nat): ParamName {
    Fresh(key + "_", serial)
  }

  /** One parsed rule: a conjunct on the resolved column with its value bound under a fresh name. */
  function ApplyRule(q: Query, rule: Rule, mapping: FilterMapping, defaultAlias: string): Query {
    var p := RuleParam(rule.key, q.serial);
    var col := ResolveColumn(mapping, rule.key, defaultAlias);
    AndWhere(q, RuleCondition(rule.op, col, p), map[p := RuleValue(rule)]).(serial := q.serial + 1)
  }

  /** The rules, in order, with every rule that does not parse skipped. */
  function ApplyRules(q: Query, rules: seq<string>, mapping: FilterMapping, defaultAlias: string): Query {
    if |rules| == 0 then q
    else
      var q1 := ApplyRules(q, rules[..|rules| - 1], mapping, defaultAlias);
      match ParseRule(rules[|rules| - 1])
      case None => q1
      case Some(rule) => ApplyRule(q1, rule, mapping, defaultAlias)
  }

  /** A character TypeORM's `setParameter` accepts in a parameter name. */
  predicate ParamNameChar(c: char) {
    'A' <= c <= 'Z' || 'a' <= c <= 'z' || '0' <= c <= '9' || c == '_' || c == '.'
  }

  /**
   * Whether `<key>_<suffix>` is a name `setParameter` accepts. The random suffix is
   * made of letters and digits, so only the key decides.
   */
  predicate KeyAccepted(key: string) {
    forall i :: 0 <= i < |key| ==> ParamNameChar(key[i])
  }

  /** Every rule of the list that parses has a key `setParameter` accepts. */
  predicate KeysAccepted(rules: seq<string>) {
    forall i :: 0 <= i < |rules| ==> ParseRule(rules[i]).None? || KeyAccepted(ParseRule(rules[i]).value.key)
  }

  /** One more rule whose key is accepted, or that does not parse, keeps the keys of the prefix accepted. */
  lemma KeysAcceptedStep(rules: seq<string>, i: nat)
    requires i < |rules| && KeysAccepted(rules[..i])
    requires ParseRule(rules[i]).None? || KeyAccepted(ParseRule(rules[i]).value.key)
    ensures KeysAccepted(rules[..i + 1])
  {
    var prefix := rules[..i + 1];
    forall j | 0 <= j < |prefix|
      ensures ParseRule(prefix[j]).None? || KeyAccepted(ParseRule(prefix[j]).value.key)
    {
      if j < i {
        assert prefix[j] == rules[..i][j];
      }
    }
  }

  /** The error TypeORM throws for a parameter name it rejects. */
  const ParamKeyError := "QueryBuilder parameter keys may only contain numbers, letters, underscores, or periods."

  /**
   * `applyFilterToBuilder(builder, filterString, customMapping, defaultAlias)`: a
   * missing or empty string adds nothing; a parsed rule whose key `setParameter`
   * rejects makes the call throw, whatever the other rules are.
   */
  function ApplyFilter(q: Query, filterString: Option<string>, mapping: FilterMapping, defaultAlias: string): (r: Result<Query, string>)
    ensures r.Failure? <==> filterString.Some? && filterString.value != "" && !KeysAccepted(Split(filterString.value, ','))
    ensures r.Failure? ==> r.error == ParamKeyError
  {
    if filterString.None? || filterString.value == "" then Success(q)
    else
      var rules := Split(filterString.value, ',');
      if KeysAccepted(rules) then Success(ApplyRules(q, rules, mapping, defaultAlias)) else Failure(ParamKeyError)
  }

  /** The rules of a list that parse, in order. */
  function ParsedRules(rules: seq<string>): seq<Rule> {
    if |rules| == 0 then []
    else
      var init := ParsedRules(rules[..|rules| - 1]);
      match ParseRule(rules[|rules| - 1])
      case None => init
      case Some(rule) => init + [rule]
  }

  /**
   * Applying a list of rules adds exactly one conjunct per rule that parses, in
   * rule order, on the resolved column, with the rule's value bound under a name no
   * other parameter has; the query's earlier conditions and bindings stay.
   */
  lemma {:induction false} RulesAddParsed(q: Query, rules: seq<string>, mapping: FilterMapping, defaultAlias: string)
    requires ParamsFresh(q)
    ensures AddsRules(q, ApplyRules(q, rules, mapping, defaultAlias), ParsedRules(rules), mapping, defaultAlias)
  {
    if |rules| > 0 {
      var init := rules[..|rules| - 1];
      RulesAddParsed(q, init, mapping, defaultAlias);
      match ParseRule(rules[|rules| - 1])
      case None =>
      case Some(rule) =>
        RuleAdded(q, ApplyRules(q, init, mapping, defaultAlias), ParsedRules(init), rule, mapping, defaultAlias);
    }
  }

  /**
   * `r` is `q` with one conjunct per rule of `ps` added in order, on the resolved
   * column, with the rule's value bound under a name no other parameter has; the
   * query's earlier conditions and bindings stay.
   */
  ghost predicate AddsRules(q: Query, r: Query, ps: seq<Rule>, mapping: FilterMapping, defaultAlias: string) {
    && r.alias == q.alias && ParamsFresh(r) && r.serial == q.serial + |ps|
    && |r.wheres| == |q.wheres| + |ps| && r.wheres[..|q.wheres|] == q.wheres
    && (forall p :: p in q.params ==> p in r.params && r.params[p] == q.params[p])
    && (forall i :: 0 <= i < |ps| ==>
          && r.wheres[|q.wheres| + i] == RuleCondition(ps[i].op, ResolveColumn(mapping, ps[i].key, defaultAlias),
                                                       RuleParam(ps[i].key, q.serial + i))
          && RuleParam(ps[i].key, q.serial + i) in r.params
          && r.params[RuleParam(ps[i].key, q.serial + i)] == RuleValue(ps[i]))
  }

  /** Applying one more parsed rule extends what the earlier rules added by that rule. */
  lemma RuleAdded(q: Query, m: Query, ps: seq<Rule>, rule: Rule, mapping: FilterMapping, defaultAlias: string)
    requires ParamsFresh(q) && AddsRules(q, m, ps, mapping, defaultAlias)
    ensures AddsRules(q, ApplyRule(m, rule, mapping, defaultAlias), ps + [rule], mapping, defaultAlias)
  {
    var p := RuleParam(rule.key, m.serial);
    assert p !in m.params;
    var r := ApplyRule(m, rule, mapping, defaultAlias);
    var ps1 := ps + [rule];
    var cond := RuleCondition(rule.op, ResolveColumn(mapping, rule.key, defaultAlias), p);
    assert r.wheres == m.wheres + [cond] && r.params == m.params[p := RuleValue(rule)];
    forall i | 0 <= i < |ps|
      ensures RuleParam(ps[i].key, q.serial + i) != p
    {
      assert RuleParam(ps[i].key, q.serial + i) in m.params;
    }
    forall i | 0 <= i < |ps1|
      ensures r.wheres[|q.wheres| + i] == RuleCondition(ps1[i].op, ResolveColumn(mapping, ps1[i].key, defaultAlias),
                                                       RuleParam(ps1[i].key, q.serial + i))
      ensures RuleParam(ps1[i].key, q.serial + i) in r.params
      ensures r.params[RuleParam(ps1[i].key, q.serial + i)] == RuleValue(ps1[i])
    {
      if i < |ps| {
        assert ps1[i] == ps[i];
        assert r.wheres[|q.wheres| + i] == m.wheres[|q.wheres| + i];
      } else {
        assert ps1[i] == rule;
        assert r.wheres[|q.wheres| + i] == cond;
      }
    }
  }

  /** A filter string none of whose rules parses leaves the query as it was. */
  lemma NoRuleNoChange(q: Query, filterString: Option<string>, mapping: FilterMapping, defaultAlias: string)
    requires filterString.Some? ==> forall rule :: rule in Split(filterString.value, ',') ==> ParseRule(rule).None?
    ensures ApplyFilter(q, filterString, mapping, defaultAlias) == Success(q)
  {
    if filterString.Some? && filterString.value != "" {
      var rules := Split(filterString.value, ',');
      forall i | 0 <= i < |rules| ensures ParseRule(rules[i]).None? {
        assert rules[i] in rules;
      }
      NoneParsedNoChange(q, rules, mapping, defaultAlias);
    }
  }

  lemma {:induction false} NoneParsedNoChange(q: Query, rules: seq<string>, mapping: FilterMapping, defaultAlias: string)
    requires forall rule :: rule in rules ==> ParseRule(rule).None?
    ensures ApplyRules(q, rules, mapping, defaultAlias) == q
  {
    if |rules| > 0 {
      assert rules[|rules| - 1] in rules;
      NoneParsedNoChange(q, rules[..|rules| - 1], mapping, defaultAlias);
    }
  }

  /**
   * The imperative form: each rule of the split string in turn, ill-formed ones
   * skipped, and the first rule whose key `setParameter` rejects ends the call.
   */
  method ApplyFilterToBuilder(builder: Query, filterString: Option<string>, customMapping: FilterMapping, defaultAlias: string)
    returns (r: Result<Query, string>)
    ensures r == ApplyFilter(builder, filterString, customMapping, defaultAlias)
  {
    if filterString.None? || filterString.value == "" {
      return Success(builder);
    }
    var rules := Split(filterString.value, ',');
    var q := builder;
    for i := 0 to |rules|
      invariant q == ApplyRules(builder, rules[..i], customMapping, defaultAlias)
      invariant KeysAccepted(rules[..i])
    {
      assert rules[..i + 1][..i] == rules[..i];
      var parts := Split(rules[i], ':');
      if |parts| < 3 {
        KeysAcceptedStep(rules, i);
        continue;
      }
      var key := parts[0];
      if exists k :: 0 <= k < |key| && !ParamNameChar(key[k]) {
        assert ParseRule(rules[i]).value.key == key;
        return Failure(ParamKeyError);
      }
      KeysAcceptedStep(rules, i);
      var value := Join(parts[2..], ":");
      var column: string;
      if key in customMapping && customMapping[key] != "" {
        column := customMapping[key];
      } else if '.' in key {
        column := key;
      } else {
        column := defaultAlias + "." + key;
      }
      var paramName := RuleParam(key, q.serial);
      var rule := Rule(key, parts[1], value);
      q := AndWhere(q, RuleCondition(parts[1], column, paramName), map[paramName := RuleValue(rule)]).(serial := q.serial + 1);
    }
    assert rules[..|rules|] == rules;
    r := Success(q);
  }
}
