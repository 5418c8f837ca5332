/**
 * The conditional search builder: a list of guarded branches, each matching the
 * search term against its own fields, rendered as one OR of `guard AND (f1 OR f2 ...)`
 * groups in the order the branches were declared.
 */
module ConditionalSearch {
  import opened Strings
  import opened QueryBuilder

  /** One declared branch: its guard, the guard's parameters and the fields it matches. */
  datatype Branch = Branch(condition: string, params: RawParams, fields: seq<string>, isExact: bool)

  const ExactTerm := Named("exactTerm")
  const LikeTerm := Named("likeTerm")

  /** The `%term%` pattern of a trimmed term, lower-cased outside Postgres. */
  function LikePattern(rawTerm: string, isPostgres: bool): Value {
    var p := "%" + rawTerm + "%";
    if isPostgres then Str(p) else Str(ToLower(p))
  }

  /** The match of one field: equality for an exact branch, a pattern match otherwise. */
  function FieldMatch(alias: string, field: string, isExact: bool, isPostgres: bool): Pred {
    var col := Qualify(alias, field);
    if isExact then Compare(col, Eq, ExactTerm)
    else if isPostgres then ILike(col, LikeTerm)
    else LowerLike(col, LikeTerm)
  }

  function FieldMatches(alias: string, b: Branch, isPostgres: bool): seq<Pred> {
    seq(|b.fields|, i requires 0 <= i < |b.fields| => FieldMatch(alias, b.fields[i], b.isExact, isPostgres))
  }

  /** The rendered branch: its guard AND the OR of its field matches. */
  function BranchPred(alias: string, b: Branch, isPostgres: bool): Pred {
    AllOf([Raw(b.condition), AnyOf(FieldMatches(alias, b, isPostgres))])
  }

  /** The rendered branches, one per declared branch, in declaration order. */
  function BranchAlts(alias: string, bs: seq<Branch>, isPostgres: bool): seq<Pred> {
    if |bs| == 0 then []
    else BranchAlts(alias, bs[..|bs| - 1], isPostgres) + [BranchPred(alias, bs[|bs| - 1], isPostgres)]
  }

  /** The whole bracket: the first branch is its WHERE, every later one is OR-ed on. */
  function BranchesPred(alias: string, bs: seq<Branch>, isPostgres: bool): Pred {
    AnyOf(BranchAlts(alias, bs, isPostgres))
  }

  /** What one matched field binds: the trimmed term, or its `%term%` pattern. */
  function TermBinding(rawTerm: string, isExact: bool, isPostgres: bool): Bindings {
    if isExact then map[ExactTerm := Str(rawTerm)] else map[LikeTerm := LikePattern(rawTerm, isPostgres)]
  }

  /** What the field group of a branch binds: nothing when it has no field. */
  function FieldsBinding(b: Branch, rawTerm: string, isPostgres: bool): Bindings {
    if |b.fields| == 0 then map[] else TermBinding(rawTerm, b.isExact, isPostgres)
  }

  /** The bindings rendering one branch sets: its guard's, then its field group's. */
  function BranchBindings(b: Branch, rawTerm: string, isPostgres: bool): Bindings {
    AsBindings(b.params) + FieldsBinding(b, rawTerm, isPostgres)
  }

  /** The bindings of all branches, merged in declaration order. */
  function AllBindings(bs: seq<Branch>, rawTerm: string, isPostgres: bool): Bindings {
    if |bs| == 0 then map[]
    else AllBindings(bs[..|bs| - 1], rawTerm, isPostgres) + BranchBindings(bs[|bs| - 1], rawTerm, isPostgres)
  }

  class ConditionalSearchBuilder {
    var branches: seq<Branch>
    const searchTerm: string
    const isPostgres: bool

    constructor (searchTerm: string, isPostgres: bool)
      ensures this.searchTerm == searchTerm && this.isPostgres == isPostgres && branches == []
    {
      this.searchTerm := searchTerm;
      this.isPostgres := isPostgres;
      branches := [];
    }

    method MatchCase(condition: string, params: RawParams, searchFields: seq<string>)
      modifies this
      ensures branches == old(branches) + [Branch(condition, params, searchFields, false)]
    {
      branches := branches + [Branch(condition, params, searchFields, false)];
    }

    method MatchExact(condition: string, params: RawParams, searchFields: seq<string>)
      modifies this
      ensures branches == old(branches) + [Branch(condition, params, searchFields, true)]
    {
      branches := branches + [Branch(condition, params, searchFields, true)];
    }

    /**
     * Renders the branches against a query whose alias is `alias`: the bracket to
     * AND onto the query, and the parameters the rendering binds on it.
     */
    method Build(alias: string) returns (p: Pred, b: Bindings)
      ensures p == BranchesPred(alias, branches, isPostgres)
      ensures b == AllBindings(branches, Trim(searchTerm), isPostgres)
    {
      var rawTerm := Trim(searchTerm);
      p, b := RenderBranches(alias, branches, rawTerm, isPostgres);
    }
  }

  /** One bracket per branch, OR-ed in declaration order, and the bindings they set. */
  method RenderBranches(alias: string, bs: seq<Branch>, rawTerm: string, isPostgres: bool)
    returns (p: Pred, b: Bindings)
    ensures p == BranchesPred(alias, bs, isPostgres)
    ensures b == AllBindings(bs, rawTerm, isPostgres)
  {
    var alts: seq<Pred> := [];
    b := map[];
    for k := 0 to |bs|
      invariant alts == BranchAlts(alias, bs[..k], isPostgres)
      invariant b == AllBindings(bs[..k], rawTerm, isPostgres)
    {
      var matches, tb := RenderFields(alias, bs[k], rawTerm, isPostgres);
      RenderStep(alias, bs, k, rawTerm, isPostgres);
      var branchBindings := AsBindings(bs[k].params) + tb;
      var branchPred := AllOf([Raw(bs[k].condition), AnyOf(matches)]);
      assert branchBindings == BranchBindings(bs[k], rawTerm, isPostgres);
      assert branchPred == BranchPred(alias, bs[k], isPostgres);
      b := b + branchBindings;
      alts := alts + [branchPred];
    }
    assert bs[..|bs|] == bs;
    p := AnyOf(alts);
  }

  /** Rendering one more branch extends the alternatives and the bindings by that branch. */
  lemma RenderStep(alias: string, bs: seq<Branch>, k: nat, rawTerm: string, isPostgres: bool)
    requires k < |bs|
    ensures BranchAlts(alias, bs[..k + 1], isPostgres) == BranchAlts(alias, bs[..k], isPostgres) + [BranchPred(alias, bs[k], isPostgres)]
    ensures AllBindings(bs[..k + 1], rawTerm, isPostgres) == AllBindings(bs[..k], rawTerm, isPostgres) + BranchBindings(bs[k], rawTerm, isPostgres)
  {
    var next := bs[..k + 1];
    assert next[..k] == bs[..k];
  }

  /** The OR-ed field group of one branch, and the term binding it sets. */
  method RenderFields(alias: string, branch: Branch, rawTerm: string, isPostgres: bool)
    returns (matches: seq<Pred>, tb: Bindings)
    ensures matches == FieldMatches(alias, branch, isPostgres)
    ensures tb == FieldsBinding(branch, rawTerm, isPostgres)
  {
    matches := [];
    tb := map[];
    var j := 0;
    while j < |branch.fields|
      invariant 0 <= j <= |branch.fields|
      invariant matches == FieldMatches(alias, branch, isPostgres)[..j]
      invariant tb == if j == 0 then map[] else TermBinding(rawTerm, branch.isExact, isPostgres)
    {
      matches := matches + [FieldMatch(alias, branch.fields[j], branch.isExact, isPostgres)];
      if branch.isExact {
        tb := tb[ExactTerm := Str(rawTerm)];
      } else {
        tb := tb[LikeTerm := LikePattern(rawTerm, isPostgres)];
      }
      j := j + 1;
    }
  }

  /** The branches render in declaration order, each as its guard AND its field group. */
  lemma {:induction false} BranchesInOrder(alias: string, bs: seq<Branch>, isPostgres: bool)
    ensures |BranchesPred(alias, bs, isPostgres).alts| == |bs|
    ensures forall i :: 0 <= i < |bs| ==> BranchesPred(alias, bs, isPostgres).alts[i] == BranchPred(alias, bs[i], isPostgres)
  {
    if |bs| > 0 {
      var init := bs[..|bs| - 1];
      BranchesInOrder(alias, init, isPostgres);
      assert forall i :: 0 <= i < |init| ==> init[i] == bs[i];
    }
  }

  /** No guard of these branches uses the builder's own term names. */
  predicate GuardsKeepTermNames(bs: seq<Branch>) {
    forall i :: 0 <= i < |bs| ==> "exactTerm" !in bs[i].params && "likeTerm" !in bs[i].params
  }

  /**
   * When the guards leave the builder's term names alone, the rendered query binds
   * `exactTerm` to the trimmed term as soon as an exact branch matches some field,
   * and `likeTerm` to the `%term%` pattern as soon as a case branch does.
   */
  lemma {:induction false} TermsBound(bs: seq<Branch>, rawTerm: string, isPostgres: bool, k: nat)
    requires GuardsKeepTermNames(bs)
    requires k < |bs| && |bs[k].fields| > 0
    ensures bs[k].isExact ==> ExactTerm in AllBindings(bs, rawTerm, isPostgres)
                              && AllBindings(bs, rawTerm, isPostgres)[ExactTerm] == Str(rawTerm)
    ensures !bs[k].isExact ==> LikeTerm in AllBindings(bs, rawTerm, isPostgres)
                               && AllBindings(bs, rawTerm, isPostgres)[LikeTerm] == LikePattern(rawTerm, isPostgres)
  {
    var n := |bs| - 1;
    GuardLeavesTerms(bs, n);
    var init := bs[..n];
    var prev := AllBindings(init, rawTerm, isPostgres);
    var guard := AsBindings(bs[n].params);
    var fb := FieldsBinding(bs[n], rawTerm, isPostgres);
    assert AllBindings(bs, rawTerm, isPostgres) == prev + (guard + fb);
    FieldsBindingValues(bs[n], rawTerm, isPostgres);
    var key := if bs[k].isExact then ExactTerm else LikeTerm;
    var v := if bs[k].isExact then Str(rawTerm) else LikePattern(rawTerm, isPostgres);
    assert key in fb ==> fb[key] == v;
    if k < n {
      GuardsKeepPrefix(bs, n);
      assert init[k] == bs[k];
      TermsBound(init, rawTerm, isPostgres, k);
      assert key in prev && prev[key] == v;
    } else {
      assert key in fb;
    }
    UnionKeeps(prev, guard, fb, key, v);
  }

  lemma GuardsKeepPrefix(bs: seq<Branch>, n: nat)
    requires GuardsKeepTermNames(bs) && n <= |bs|
    ensures GuardsKeepTermNames(bs[..n])
  {
    forall i | 0 <= i < n ensures "exactTerm" !in bs[..n][i].params && "likeTerm" !in bs[..n][i].params {
      assert bs[..n][i] == bs[i];
    }
  }

  /** A guard whose parameters avoid the term names binds neither of them. */
  lemma GuardLeavesTerms(bs: seq<Branch>, n: nat)
    requires GuardsKeepTermNames(bs) && n < |bs|
    ensures ExactTerm !in AsBindings(bs[n].params) && LikeTerm !in AsBindings(bs[n].params)
  {
    var params := bs[n].params;
    assert "exactTerm" !in params && "likeTerm" !in params;
  }

  /** The field group of a branch binds at most the two term names, each to its own value, and the matching one when it has fields. */
  lemma FieldsBindingValues(b: Branch, rawTerm: string, isPostgres: bool)
    ensures var fb := FieldsBinding(b, rawTerm, isPostgres);
      && (ExactTerm in fb ==> fb[ExactTerm] == Str(rawTerm))
      && (LikeTerm in fb ==> fb[LikeTerm] == LikePattern(rawTerm, isPostgres))
      && (|b.fields| > 0 && b.isExact ==> ExactTerm in fb)
      && (|b.fields| > 0 && !b.isExact ==> LikeTerm in fb)
  {
    assert "exactTerm"[0] != "likeTerm"[0];
  }

  /** A key the middle map does not bind keeps its value across a three-way merge, whichever outer map supplies it. */
  lemma UnionKeeps(prev: Bindings, guard: Bindings, fb: Bindings, key: ParamName, v: Value)
    requires key !in guard
    requires (key in prev && prev[key] == v) || key in fb
    requires key in fb ==> fb[key] == v
    ensures key in prev + (guard + fb) && (prev + (guard + fb))[key] == v
  {
  }
}
