/** The payload rewrite of a parsed dismax query tree, as pure functions of the
    tree, the set of payload fields and the parser's tie-breaker, with the
    properties the parser relies on. */
module PayloadRewrite {
  import opened Queries

  /** `new PayloadTermQuery(term, PAYLOAD_FUNCTION)`: the shared max-payload
      function, span scores included, the default boost. */
  function PayloadTerm(t: Term): (r: Query)
    ensures r.PayloadTermQuery? && LeafTerms(r) == [t] && r.boost == DefaultBoost
  {
    PayloadTermQuery(t, MaxPayloadFunction, true, DefaultBoost)
  }

  /** The span clauses of the near query built for a phrase: one payload term
      query per phrase term. */
  function PayloadClauses(terms: seq<Term>): (r: seq<Query>)
    ensures |r| == |terms|
  {
    if terms == [] then [] else [PayloadTerm(terms[0])] + PayloadClauses(terms[1..])
  }

  /** Clause i of the near query wraps phrase term i. */
  lemma {:induction false} PayloadClausesAt(terms: seq<Term>, i: nat)
    requires i < |terms|
    ensures PayloadClauses(terms)[i] == PayloadTerm(terms[i])
  {
    if i > 0 {
      PayloadClausesAt(terms[1..], i - 1);
    }
  }

  /** handleTermQuery: a term on a payload field becomes a payload term query;
      the query is changed exactly when its field is a payload field, and it
      keeps its term either way. */
  function TermRewrite(input: Query, fields: set<string>): (r: Query)
    requires input.TermQuery?
    ensures r == input <==> input.term.field !in fields
    ensures LeafTerms(r) == LeafTerms(input)
  {
    if input.term.field !in fields then input else PayloadTerm(input.term)
  }

  /** handlePhraseQuery: only the first term's field is tested, and an empty
      phrase is never passed through; the result matches on the phrase's terms
      in their order either way. */
  function PhraseRewrite(input: Query, fields: set<string>): (r: Query)
    requires input.PhraseQuery?
    ensures r == input <==> |input.terms| > 0 && input.terms[0].field !in fields
    ensures LeafTerms(r) == input.terms
  {
    var terms := input.terms;
    if |terms| > 0 && terms[0].field !in fields then input
    else
      NearQueryLeaves(terms, input.slop);
      PayloadNearQuery(PayloadClauses(terms), input.slop, false, DefaultBoost)
  }

  /** The near query built for a phrase matches on the phrase's terms, in order. */
  lemma NearQueryLeaves(terms: seq<Term>, slop: int)
    ensures LeafTerms(PayloadNearQuery(PayloadClauses(terms), slop, false, DefaultBoost)) == terms
  {
    var spans := PayloadClauses(terms);
    forall i | 0 <= i < |terms|
      ensures LeafTerms(spans[i]) == [terms[i]]
    {
      PayloadClausesAt(terms, i);
    }
    assert seq(|spans|, i requires 0 <= i < |spans| => LeafTerms(spans[i]))
        == seq(|terms|, i requires 0 <= i < |terms| => [terms[i]]);
    FlattenSingletons(terms);
  }

  /** handleQuery: dispatch on the kind of node. A dismax node is rebuilt with
      the parser's tie-breaker; a boolean node keeps everything but the
      queries of its clauses; any other kind passes through. The nodes built
      here carry the default boost and the nodes returned as they were keep
      their own, which is why the top level copies the input's boost. */
  function Dispatch(input: Query, fields: set<string>, tie: Weight): (r: Query)
    ensures r.boost == if BuildsNewNode(input, fields) then DefaultBoost else input.boost
    decreases input, 0
  {
    match input
    case TermQuery(_, _) => TermRewrite(input, fields)
    case PhraseQuery(_, _, _) => PhraseRewrite(input, fields)
    case DisjunctionMaxQuery(ds, _, _) =>
      DisjunctionMaxQuery(seq(|ds|, i requires 0 <= i < |ds| => Rewrite(ds[i], fields, tie)), tie, DefaultBoost)
    case BooleanQuery(cs, _, _, _) =>
      input.(clauses := seq(|cs|, i requires 0 <= i < |cs| => cs[i].(query := Rewrite(cs[i].query, fields, tie))))
    case _ => input
  }

  /** rewriteQueryAsPayloadQuery: dispatch, then give the result the input's boost. */
  function Rewrite(input: Query, fields: set<string>, tie: Weight): (output: Query)
    ensures output.boost == input.boost
    decreases input, 1
  {
    Dispatch(input, fields, tie).(boost := input.boost)
  }

  /** The nodes for which handleQuery builds a new query, whose boost starts at
      the default. */
  predicate BuildsNewNode(q: Query, fields: set<string>)
  {
    match q
    case TermQuery(t, _) => t.field in fields
    case PhraseQuery(ts, _, _) => |ts| == 0 || ts[0].field in fields
    case DisjunctionMaxQuery(_, _, _) => true
    case _ => false
  }

  /** A term is rewritten exactly when its field is a payload field, into a
      payload term over the same term with the max-payload function. */
  lemma TermGating(t: Term, boost: Weight, fields: set<string>, tie: Weight)
    ensures t.field !in fields ==> Rewrite(TermQuery(t, boost), fields, tie) == TermQuery(t, boost)
    ensures t.field in fields ==>
      Rewrite(TermQuery(t, boost), fields, tie) == PayloadTermQuery(t, MaxPayloadFunction, true, boost)
  {
  }

  /** A non-empty phrase whose first term is not on a payload field is returned
      as it is. */
  lemma PhraseGating(terms: seq<Term>, slop: int, boost: Weight, fields: set<string>, tie: Weight)
    requires |terms| > 0 && terms[0].field !in fields
    ensures Rewrite(PhraseQuery(terms, slop, boost), fields, tie) == PhraseQuery(terms, slop, boost)
  {
  }

  /** Otherwise (in particular for an empty phrase) the result is an unordered
      near query with the same slop and one payload term clause per phrase
      term, clause i wrapping term i. */
  lemma {:induction false} PhraseNearQuery(terms: seq<Term>, slop: int, boost: Weight, fields: set<string>, tie: Weight)
    requires |terms| == 0 || terms[0].field in fields
    ensures var r := Rewrite(PhraseQuery(terms, slop, boost), fields, tie);
      r.PayloadNearQuery? && r.slop == slop && !r.inOrder && r.boost == boost &&
      |r.spans| == |terms| &&
      forall i :: 0 <= i < |terms| ==> r.spans[i] == PayloadTermQuery(terms[i], MaxPayloadFunction, true, DefaultBoost)
  {
    forall i | 0 <= i < |terms|
      ensures PayloadClauses(terms)[i] == PayloadTerm(terms[i])
    {
      PayloadClausesAt(terms, i);
    }
  }

  /** A dismax node is rebuilt with the parser's tie-breaker whatever its own
      was, over the rewrites of its children in the same order. */
  lemma DisMaxRebuild(ds: seq<Query>, original: Weight, boost: Weight, fields: set<string>, tie: Weight)
    ensures var r := Rewrite(DisjunctionMaxQuery(ds, original, boost), fields, tie);
      r.DisjunctionMaxQuery? && r.tieBreaker == tie && r.boost == boost &&
      |r.disjuncts| == |ds| &&
      forall i :: 0 <= i < |ds| ==> r.disjuncts[i] == Rewrite(ds[i], fields, tie) && r.disjuncts[i].boost == ds[i].boost
  {
  }

  /** A boolean node keeps its clause count, every occurrence flag and all its
      other attributes; only the query of each clause is replaced by its rewrite. */
  lemma BooleanInPlace(q: Query, fields: set<string>, tie: Weight)
    requires q.BooleanQuery?
    ensures var r := Rewrite(q, fields, tie);
      r.BooleanQuery? && r.disableCoord == q.disableCoord && r.minimumShouldMatch == q.minimumShouldMatch &&
      r.boost == q.boost && |r.clauses| == |q.clauses| &&
      forall i :: 0 <= i < |q.clauses| ==>
        r.clauses[i].occur == q.clauses[i].occur && r.clauses[i].query == Rewrite(q.clauses[i].query, fields, tie)
  {
  }

  /** Every kind the dispatch does not name comes back unchanged. */
  lemma PassThrough(q: Query, fields: set<string>, tie: Weight)
    requires !q.TermQuery? && !q.PhraseQuery? && !q.DisjunctionMaxQuery? && !q.BooleanQuery?
    ensures Rewrite(q, fields, tie) == q
  {
  }

  /** Some node reachable through dismax children and boolean clauses is a leaf
      the rewrite replaces: a term on a payload field, or a phrase that is
      empty or whose first term is on a payload field. */
  predicate Rewritable(q: Query, fields: set<string>)
  {
    match q
    case TermQuery(t, _) => t.field in fields
    case PhraseQuery(ts, _, _) => |ts| == 0 || ts[0].field in fields
    case DisjunctionMaxQuery(ds, _, _) => exists i :: 0 <= i < |ds| && Rewritable(ds[i], fields)
    case BooleanQuery(cs, _, _, _) => exists i :: 0 <= i < |cs| && Rewritable(cs[i].query, fields)
    case _ => false
  }

  /** Every dismax node reachable through dismax children and boolean clauses
      has tie-breaker `tie`. */
  predicate TieBreakersAre(q: Query, tie: Weight)
  {
    match q
    case DisjunctionMaxQuery(ds, t, _) => t == tie && forall i :: 0 <= i < |ds| ==> TieBreakersAre(ds[i], tie)
    case BooleanQuery(cs, _, _, _) => forall i :: 0 <= i < |cs| ==> TieBreakersAre(cs[i].query, tie)
    case _ => true
  }

  /** After the rewrite nothing is left to replace and every dismax node carries
      the parser's tie-breaker. */
  lemma {:induction false} RewriteLeavesNothingRewritable(q: Query, fields: set<string>, tie: Weight)
    ensures !Rewritable(Rewrite(q, fields, tie), fields)
    ensures TieBreakersAre(Rewrite(q, fields, tie), tie)
  {
    match q
    case DisjunctionMaxQuery(ds, _, _) =>
      forall i | 0 <= i < |ds|
        ensures !Rewritable(Rewrite(ds[i], fields, tie), fields) && TieBreakersAre(Rewrite(ds[i], fields, tie), tie)
      {
        RewriteLeavesNothingRewritable(ds[i], fields, tie);
      }
    case BooleanQuery(cs, _, _, _) =>
      forall i | 0 <= i < |cs|
        ensures !Rewritable(Rewrite(cs[i].query, fields, tie), fields)
        ensures TieBreakersAre(Rewrite(cs[i].query, fields, tie), tie)
      {
        RewriteLeavesNothingRewritable(cs[i].query, fields, tie);
      }
    case _ =>
  }

  /** The rewrite returns its input exactly when nothing in it is to be
      replaced and its dismax nodes already carry the parser's tie-breaker. */
  lemma {:induction false} RewriteFixedPoint(q: Query, fields: set<string>, tie: Weight)
    ensures Rewrite(q, fields, tie) == q <==> !Rewritable(q, fields) && TieBreakersAre(q, tie)
  {
    RewriteLeavesNothingRewritable(q, fields, tie);
    if !Rewritable(q, fields) && TieBreakersAre(q, tie) {
      RewriteUnchanged(q, fields, tie);
    }
  }

  /** The "if" half of RewriteFixedPoint, by induction on the tree. */
  lemma {:induction false} RewriteUnchanged(q: Query, fields: set<string>, tie: Weight)
    requires !Rewritable(q, fields) && TieBreakersAre(q, tie)
    ensures Rewrite(q, fields, tie) == q
  {
    match q
    case DisjunctionMaxQuery(ds, _, b) =>
      var rs := seq(|ds|, i requires 0 <= i < |ds| => Rewrite(ds[i], fields, tie));
      forall i | 0 <= i < |ds|
        ensures rs[i] == ds[i]
      {
        RewriteUnchanged(ds[i], fields, tie);
      }
      assert rs == ds;
    case BooleanQuery(cs, _, _, _) =>
      var rs := seq(|cs|, i requires 0 <= i < |cs| => cs[i].(query := Rewrite(cs[i].query, fields, tie)));
      forall i | 0 <= i < |cs|
        ensures rs[i] == cs[i]
      {
        RewriteUnchanged(cs[i].query, fields, tie);
      }
      assert rs == cs;
    case _ =>
  }

  /** Rewriting twice is rewriting once; so a boolean node reached twice, whose
      clauses are then rewritten twice in place, ends as if reached once. */
  lemma RewriteIdempotent(q: Query, fields: set<string>, tie: Weight)
    ensures Rewrite(Rewrite(q, fields, tie), fields, tie) == Rewrite(q, fields, tie)
  {
    var r := Rewrite(q, fields, tie);
    RewriteLeavesNothingRewritable(q, fields, tie);
    RewriteFixedPoint(r, fields, tie);
  }

  /** The rewrite neither drops nor invents nor reorders a term: the leaves of
      the result are the leaves of the input. */
  lemma {:induction false} RewritePreservesTerms(q: Query, fields: set<string>, tie: Weight)
    ensures LeafTerms(Rewrite(q, fields, tie)) == LeafTerms(q)
  {
    match q
    case PhraseQuery(ts, slop, b) =>
      if |ts| == 0 || ts[0].field in fields {
        NearQueryLeaves(ts, slop);
      }
    case DisjunctionMaxQuery(ds, _, b) =>
      var rs := seq(|ds|, i requires 0 <= i < |ds| => Rewrite(ds[i], fields, tie));
      forall i | 0 <= i < |ds|
        ensures LeafTerms(rs[i]) == LeafTerms(ds[i])
      {
        RewritePreservesTerms(ds[i], fields, tie);
      }
      assert seq(|rs|, i requires 0 <= i < |rs| => LeafTerms(rs[i]))
          == seq(|ds|, i requires 0 <= i < |ds| => LeafTerms(ds[i]));
    case BooleanQuery(cs, _, _, _) =>
      var rs := seq(|cs|, i requires 0 <= i < |cs| => cs[i].(query := Rewrite(cs[i].query, fields, tie)));
      forall i | 0 <= i < |cs|
        ensures LeafTerms(rs[i].query) == LeafTerms(cs[i].query)
      {
        RewritePreservesTerms(cs[i].query, fields, tie);
      }
      assert seq(|rs|, i requires 0 <= i < |rs| => LeafTerms(rs[i].query))
          == seq(|cs|, i requires 0 <= i < |cs| => LeafTerms(cs[i].query));
    case _ =>
  }

  /** Some phrase reachable through dismax children and boolean clauses is empty. */
  predicate HasEmptyPhrase(q: Query)
  {
    match q
    case PhraseQuery(ts, _, _) => |ts| == 0
    case DisjunctionMaxQuery(ds, _, _) => exists i :: 0 <= i < |ds| && HasEmptyPhrase(ds[i])
    case BooleanQuery(cs, _, _, _) => exists i :: 0 <= i < |cs| && HasEmptyPhrase(cs[i].query)
    case _ => false
  }

  /** With no payload fields, the only leaves the rewrite still replaces are
      empty phrases. */
  lemma {:induction false} RewritableWithoutFields(q: Query)
    ensures Rewritable(q, {}) <==> HasEmptyPhrase(q)
  {
    match q
    case DisjunctionMaxQuery(ds, _, _) =>
      forall i | 0 <= i < |ds|
        ensures Rewritable(ds[i], {}) <==> HasEmptyPhrase(ds[i])
      {
        RewritableWithoutFields(ds[i]);
      }
    case BooleanQuery(cs, _, _, _) =>
      forall i | 0 <= i < |cs|
        ensures Rewritable(cs[i].query, {}) <==> HasEmptyPhrase(cs[i].query)
      {
        RewritableWithoutFields(cs[i].query);
      }
    case _ =>
  }

  /** With an empty field set the rewrite is the identity exactly on trees
      without empty phrases whose dismax nodes already carry the tie-breaker. */
  lemma EmptyFieldSetFixedPoint(q: Query, tie: Weight)
    ensures Rewrite(q, {}, tie) == q <==> !HasEmptyPhrase(q) && TieBreakersAre(q, tie)
  {
    RewriteFixedPoint(q, {}, tie);
    RewritableWithoutFields(q);
  }

  /** What the parsed tree looks like once the rewrite has run over it: the
      boolean nodes are the very objects the rewrite updates, so they show
      their rewritten clauses, while an original dismax node still holds its
      original children (themselves possibly updated) and every other node
      is untouched. */
  function InPlaceEffect(q: Query, fields: set<string>, tie: Weight): (r: Query)
    ensures r.boost == q.boost
  {
    match q
    case BooleanQuery(_, _, _, _) => Rewrite(q, fields, tie)
    case DisjunctionMaxQuery(ds, _, _) =>
      q.(disjuncts := seq(|ds|, i requires 0 <= i < |ds| => InPlaceEffect(ds[i], fields, tie)))
    case _ => q
  }

  /** Rewriting the parsed tree as the in-place rewrite leaves it gives the
      same query as rewriting the original: the updates already made are
      ones the rewrite would make again. */
  lemma {:induction false} InPlaceEffectRewrite(q: Query, fields: set<string>, tie: Weight)
    ensures Rewrite(InPlaceEffect(q, fields, tie), fields, tie) == Rewrite(q, fields, tie)
  {
    match q
    case BooleanQuery(_, _, _, _) =>
      RewriteIdempotent(q, fields, tie);
    case DisjunctionMaxQuery(ds, _, _) =>
      var es := seq(|ds|, i requires 0 <= i < |ds| => InPlaceEffect(ds[i], fields, tie));
      assert InPlaceEffect(q, fields, tie).disjuncts == es;
      forall i | 0 <= i < |ds|
        ensures Rewrite(es[i], fields, tie) == Rewrite(ds[i], fields, tie)
      {
        InPlaceEffectRewrite(ds[i], fields, tie);
      }
      assert seq(|es|, i requires 0 <= i < |es| => Rewrite(es[i], fields, tie))
          == seq(|ds|, i requires 0 <= i < |ds| => Rewrite(ds[i], fields, tie));
    case _ =>
  }

  /** The in-place rewrite leaves the parsed tree matching on the same terms,
      in the same order. */
  lemma {:induction false} InPlaceEffectKeepsTerms(q: Query, fields: set<string>, tie: Weight)
    ensures LeafTerms(InPlaceEffect(q, fields, tie)) == LeafTerms(q)
  {
    match q
    case BooleanQuery(_, _, _, _) =>
      RewritePreservesTerms(q, fields, tie);
    case DisjunctionMaxQuery(ds, _, _) =>
      var es := seq(|ds|, i requires 0 <= i < |ds| => InPlaceEffect(ds[i], fields, tie));
      assert InPlaceEffect(q, fields, tie).disjuncts == es;
      forall i | 0 <= i < |ds|
        ensures LeafTerms(es[i]) == LeafTerms(ds[i])
      {
        InPlaceEffectKeepsTerms(ds[i], fields, tie);
      }
      assert seq(|es|, i requires 0 <= i < |es| => LeafTerms(es[i]))
          == seq(|ds|, i requires 0 <= i < |ds| => LeafTerms(ds[i]));
    case _ =>
  }
}
