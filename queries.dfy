/** The query tree the payload parser reads and builds: the parts of Lucene's
    query classes that the rewrite looks at, copies or constructs. */
module Queries {

  /** A boost or tie-breaker. The parser copies these values and never computes
      with them, so an unconstrained real stands for Java's float. */
  type Weight = real

  /** The boost of a freshly constructed Lucene query. */
  const DefaultBoost: Weight := 1.0

  /** An indexed term: the field it belongs to and its token text. */
  datatype Term = Term(field: string, text: string)

  /** BooleanClause.Occur. */
  datatype Occur = Must | Should | MustNot

  /** The function a payload query uses to combine the payloads of one term's
      occurrences; the parser only ever uses the maximum. */
  datatype PayloadFunction = MaxPayloadFunction

  /** One node of a query tree. The first four kinds are the ones the rewrite
      dispatches on; the payload kinds are what it builds; OtherQuery stands
      for every other Lucene query class. */
  datatype Query =
    | TermQuery(term: Term, boost: Weight)
    | PhraseQuery(terms: seq<Term>, slop: int, boost: Weight)
    | DisjunctionMaxQuery(disjuncts: seq<Query>, tieBreaker: Weight, boost: Weight)
    | BooleanQuery(clauses: seq<Clause>, disableCoord: bool, minimumShouldMatch: int, boost: Weight)
    | PayloadTermQuery(term: Term, payloadFunction: PayloadFunction, includeSpanScore: bool, boost: Weight)
    | PayloadNearQuery(spans: seq<Query>, slop: int, inOrder: bool, boost: Weight)
    | OtherQuery(description: string, boost: Weight)

  /** A BooleanClause: a sub-query and how it must occur. */
  datatype Clause = Clause(query: Query, occur: Occur)

  /** Concatenation of a sequence of term lists. */
  function Flatten(xss: seq<seq<Term>>): (r: seq<Term>)
  {
    if xss == [] then [] else xss[0] + Flatten(xss[1..])
  }

  /** The terms a query matches on, left to right: the leaves of Term, Phrase
      and payload nodes, reached through every kind of inner node. */
  function LeafTerms(q: Query): (r: seq<Term>)
  {
    match q
    case TermQuery(t, _) => [t]
    case PayloadTermQuery(t, _, _, _) => [t]
    case PhraseQuery(ts, _, _) => ts
    case PayloadNearQuery(spans, _, _, _) =>
      Flatten(seq(|spans|, i requires 0 <= i < |spans| => LeafTerms(spans[i])))
    case DisjunctionMaxQuery(ds, _, _) =>
      Flatten(seq(|ds|, i requires 0 <= i < |ds| => LeafTerms(ds[i])))
    case BooleanQuery(cs, _, _, _) =>
      Flatten(seq(|cs|, i requires 0 <= i < |cs| => LeafTerms(cs[i].query)))
    case OtherQuery(_, _) => []
  }

  /** Flattening one-element lists gives back the elements. */
  lemma {:induction false} FlattenSingletons(ts: seq<Term>)
    ensures Flatten(seq(|ts|, i requires 0 <= i < |ts| => [ts[i]])) == ts
  {
    var xss := seq(|ts|, i requires 0 <= i < |ts| => [ts[i]]);
    if ts != [] {
      var tail := ts[1..];
      assert xss[1..] == seq(|tail|, i requires 0 <= i < |tail| => [tail[i]]);
      FlattenSingletons(tail);
      assert ts == [ts[0]] + tail;
    }
  }
}
