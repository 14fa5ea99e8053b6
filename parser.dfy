/** PayloadDisMaxQParser: the dismax query parser that rewrites the parsed main
    query so that terms and phrases on payload fields are scored with their
    payloads. The parser object's fields, the caller's boolean query and the
    debug list are objects updated in place; the tree rewrite itself is
    specified by the functions of PayloadRewrite. */
module PayloadParser {
  import opened Queries
  import opened PayloadRewrite
  import JavaStrings

  datatype Option<T> = None | Some(value: T)
  {
    function GetOr(default: T): (r: T)
    {
      match this
      case Some(v) => v
      case None => default
    }
  }

  /** PAYLOADS_FIELD_PARAM_NAME: the request parameter listing the payload fields. */
  const PayloadsFieldParamName: string := "plf"

  /** The key of each debug entry naming a payload field. */
  const PayloadFieldDebugKey: string := "payloadField"

  /** What addMainQuery reads from the request, and the Solr collaborators it
      calls, whose behaviour is not part of this model. */
  datatype Request = Request(
    /** The request's string parameters, as solrParams.get reads them. */
    params: map<string, string>,
    /** solrParams.getFloat(TIE) parsed; None when the parameter is absent. */
    tie: Option<Weight>,
    /** getAlternateUserQuery(solrParams); None for Java's null. */
    alternateUserQuery: Option<Query>,
    stripUnbalancedQuotes: string -> string,
    partialEscape: string -> string,
    stripIllegalOperators: string -> string,
    /** getUserQuery with the query-field parser built for the tie-breaker. */
    userQuery: (string, Weight) -> Query,
    /** getPhraseQuery with the phrase-field parser built for the tie-breaker;
        None for Java's null. */
    phraseQuery: (string, Weight) -> Option<Query>
  )

  /** The cleaned user text addMainQuery parses. */
  function Sanitize(request: Request, userQuery: string): (r: string)
  {
    request.stripIllegalOperators(request.partialEscape(request.stripUnbalancedQuotes(userQuery)))
  }

  /** `userQuery == null || userQuery.trim().length() == 0`: there is no query,
      or no char of it is above U+0020. */
  predicate IsBlank(userQuery: Option<string>)
  {
    userQuery.None? || |JavaStrings.Trim(userQuery.value)| == 0
  }

  /** A user query is blank exactly when it is absent or no char of it is
      above U+0020. */
  lemma BlankIffAllTrimmed(userQuery: Option<string>)
    ensures IsBlank(userQuery) <==>
      userQuery.None? || forall i :: 0 <= i < |userQuery.value| ==> JavaStrings.IsTrimmed(userQuery.value[i])
  {
    if userQuery.Some? {
      JavaStrings.TrimIsEmptyIffBlank(userQuery.value);
    }
  }

  /** solrParams.get(name, default). */
  function GetParam(params: map<string, string>, name: string, default: string): (r: string)
  {
    if name in params then params[name] else default
  }

  /** The plf text of a request: the parameter, or "" when it is absent. */
  function PlfText(request: Request): (r: string)
  {
    GetParam(request.params, PayloadsFieldParamName, "")
  }

  /** The payload field names one request contributes: its plf text split on
      runs of whitespace, so no name holds a whitespace char. */
  function PlfFields(request: Request): (r: set<string>)
    ensures forall f :: f in r ==> JavaStrings.SpaceFree(f)
  {
    set f | f in JavaStrings.Split(PlfText(request))
  }

  /** Without a plf parameter the empty string is a payload field, and the only one. */
  lemma AbsentPlfAddsEmptyField(request: Request)
    requires PayloadsFieldParamName !in request.params
    ensures PlfFields(request) == {""}
  {
  }

  /** The empty string becomes a payload field exactly when plf is absent or
      empty, or starts with whitespace and names some field after it. */
  lemma PlfFieldNames(request: Request)
    ensures var text := PlfText(request);
      "" in PlfFields(request) <==>
        text == "" || (JavaStrings.IsRegexSpace(text[0]) && JavaStrings.NonSpace(text) != [])
  {
    JavaStrings.SplitLeadingEmpty(PlfText(request));
  }

  /** The clauses addMainQuery appends to the caller's query, or None when it
      returns false. */
  function MainClauses(userQuery: Option<string>, request: Request, fields: set<string>, tie: Weight): (r: Option<seq<Clause>>)
    ensures r.None? <==> IsBlank(userQuery) && request.alternateUserQuery.None?
    ensures r.Some? ==> 1 <= |r.value| <= 2 && r.value[0].occur == Must
    ensures r.Some? && |r.value| == 2 ==> r.value[1].occur == Should
    ensures IsBlank(userQuery) && r.Some? ==> r.value == [Clause(request.alternateUserQuery.value, Must)]
  {
    if IsBlank(userQuery) then
      if request.alternateUserQuery.None? then None
      else Some([Clause(request.alternateUserQuery.value, Must)])
    else
      var text := Sanitize(request, userQuery.value);
      var main := Clause(Rewrite(request.userQuery(text, tie), fields, tie), Must);
      var phrase := request.phraseQuery(text, tie);
      Some([main] + if phrase.Some? then [Clause(phrase.value, Should)] else [])
  }

  /** The clauses of a blank user query: the alternate query alone, if any. */
  lemma BlankQueryClauses(userQuery: Option<string>, request: Request, fields: set<string>, tie: Weight)
    requires IsBlank(userQuery)
    ensures MainClauses(userQuery, request, fields, tie) ==
      if request.alternateUserQuery.None? then None else Some([Clause(request.alternateUserQuery.value, Must)])
  {
  }

  /** The clauses of a non-blank user query: its rewrite, then the phrase query if any. */
  lemma UserQueryClauses(userQuery: Option<string>, request: Request, fields: set<string>, tie: Weight)
    requires !IsBlank(userQuery)
    ensures var text := Sanitize(request, userQuery.value);
      var phrase := request.phraseQuery(text, tie);
      MainClauses(userQuery, request, fields, tie) ==
        Some([Clause(Rewrite(request.userQuery(text, tie), fields, tie), Must)] +
          if phrase.Some? then [Clause(phrase.value, Should)] else [])
  {
  }

  /** For a non-blank user query the MUST clause is the payload rewrite of the
      parsed text: nothing in it is left to rewrite, it has the parsed query's
      boost and terms, and it is also the rewrite of the parsed tree as the
      in-place rewrite leaves it; the SHOULD clause, present exactly when the
      phrase parser yields a query, is that query not rewritten. */
  lemma MainClausesOfUserQuery(userQuery: Option<string>, request: Request, fields: set<string>, tie: Weight)
    requires !IsBlank(userQuery)
    ensures var text := Sanitize(request, userQuery.value);
      var parsed := request.userQuery(text, tie);
      var phrase := request.phraseQuery(text, tie);
      var r := MainClauses(userQuery, request, fields, tie);
      r.Some? &&
      !Rewritable(r.value[0].query, fields) && TieBreakersAre(r.value[0].query, tie) &&
      r.value[0].query.boost == parsed.boost && LeafTerms(r.value[0].query) == LeafTerms(parsed) &&
      r.value[0].query == Rewrite(InPlaceEffect(parsed, fields, tie), fields, tie) &&
      (|r.value| == 2 <==> phrase.Some?) &&
      (phrase.Some? ==> r.value[1] == Clause(phrase.value, Should))
  {
    var text := Sanitize(request, userQuery.value);
    var parsed := request.userQuery(text, tie);
    RewriteLeavesNothingRewritable(parsed, fields, tie);
    RewritePreservesTerms(parsed, fields, tie);
    InPlaceEffectRewrite(parsed, fields, tie);
  }

  /** The field list has no duplicates and holds exactly the elements of the set. */
  predicate IsEnumeration(order: seq<string>, s: set<string>)
  {
    (forall i, j :: 0 <= i < j < |order| ==> order[i] != order[j]) &&
    (forall x :: x in order ==> x in s) &&
    (forall x :: x in s ==> x in order)
  }

  /** An enumeration of a set is as long as the set is large. */
  lemma {:induction false} EnumerationLength(order: seq<string>, s: set<string>)
    requires IsEnumeration(order, s)
    ensures |order| == |s|
  {
    if order == [] {
      assert forall x :: x !in s;
    } else {
      var x, rest := order[0], order[1..];
      forall y ensures y in rest <==> y in s - {x} {
        if y in rest {
          var k :| 0 <= k < |rest| && rest[k] == y;
          assert order[k + 1] == y;
        }
        if y in s - {x} {
          var k :| 0 <= k < |order| && order[k] == y;
          assert k != 0;
          assert rest[k - 1] == y;
        }
      }
      assert forall i, j :: 0 <= i < j < |rest| ==> rest[i] != rest[j] by {
        forall i, j | 0 <= i < j < |rest| ensures rest[i] != rest[j] {
          assert rest[i] == order[i + 1] && rest[j] == order[j + 1];
        }
      }
      EnumerationLength(rest, s - {x});
    }
  }

  /** The debug entries naming the payload fields, in the given order. */
  function PayloadFieldEntries(order: seq<string>): (r: seq<(string, string)>)
  {
    seq(|order|, i requires 0 <= i < |order| => (PayloadFieldDebugKey, order[i]))
  }

  /** The debug entries of an enumeration name each field exactly once, and
      nothing else. */
  lemma DebugEntriesPerField(order: seq<string>, fields: set<string>)
    requires IsEnumeration(order, fields)
    ensures var es := PayloadFieldEntries(order);
      |es| == |fields| &&
      (forall k :: 0 <= k < |es| ==> es[k].0 == PayloadFieldDebugKey && es[k].1 in fields) &&
      (forall f :: f in fields ==> exists k :: 0 <= k < |es| && es[k] == (PayloadFieldDebugKey, f)) &&
      (forall k, l :: 0 <= k < l < |es| ==> es[k] != es[l])
  {
    var es := PayloadFieldEntries(order);
    EnumerationLength(order, fields);
    forall f | f in fields
      ensures exists k :: 0 <= k < |es| && es[k] == (PayloadFieldDebugKey, f)
    {
      var k :| 0 <= k < |order| && order[k] == f;
      assert es[k] == (PayloadFieldDebugKey, f);
    }
  }

  /** The BooleanQuery the caller hands to addMainQuery, which adds clauses to it. */
  class MutableBooleanQuery {
    var clauses: seq<Clause>

    constructor ()
      ensures clauses == []
    {
      clauses := [];
    }

    /** BooleanQuery.add(query, occur). */
    method Add(query: Query, occur: Occur)
      modifies this
      ensures clauses == old(clauses) + [Clause(query, occur)]
    {
      clauses := clauses + [Clause(query, occur)];
    }
  }

  /** The caller's debug NamedList, an append-only list of named entries. */
  class NamedList {
    var entries: seq<(string, string)>

    constructor ()
      ensures entries == []
    {
      entries := [];
    }

    /** NamedList.add(name, value). */
    method Add(name: string, value: string)
      modifies this
      ensures entries == old(entries) + [(name, value)]
    {
      entries := entries + [(name, value)];
    }

    /** Appends the given entries in order. */
    method AddAll(es: seq<(string, string)>)
      modifies this
      ensures entries == old(entries) + es
    {
      entries := entries + es;
    }
  }

  class PayloadDisMaxQParser {
    /** The query string the parser was created with (getString()); None for null. */
    const qstr: Option<string>
    var payloadFields: set<string>
    var tiebreaker: Weight
    /** The parsed user query and the alternate query, as the superclass keeps them. */
    var parsedUserQuery: Option<Query>
    var altUserQuery: Option<Query>

    constructor (qstr: Option<string>)
      ensures this.qstr == qstr && payloadFields == {} && tiebreaker == 0.0
      ensures parsedUserQuery == None && altUserQuery == None
    {
      this.qstr := qstr;
      payloadFields := {};
      tiebreaker := 0.0;
      parsedUserQuery := None;
      altUserQuery := None;
    }

    /** addMainQuery: records the tie-breaker, adds the plf fields to the
        payload fields (never removing one), and appends to `query` the clauses
        MainClauses describes; returns false, adding nothing, when there is
        neither a user query nor an alternate query. */
    method AddMainQuery(query: MutableBooleanQuery, request: Request) returns (added: bool)
      modifies this, query
      ensures tiebreaker == request.tie.GetOr(0.0)
      ensures payloadFields == old(payloadFields) + PlfFields(request)
      ensures var clauses := MainClauses(qstr, request, payloadFields, tiebreaker);
        added == clauses.Some? &&
        query.clauses == old(query.clauses) + (if clauses.Some? then clauses.value else [])
      ensures IsBlank(qstr) ==> parsedUserQuery == None && altUserQuery == request.alternateUserQuery
      ensures !IsBlank(qstr) ==>
        altUserQuery == None &&
        parsedUserQuery == Some(InPlaceEffect(request.userQuery(Sanitize(request, qstr.value), tiebreaker), payloadFields, tiebreaker))
      ensures !IsBlank(qstr) ==>
        parsedUserQuery.Some? && |query.clauses| > |old(query.clauses)| &&
        query.clauses[|old(query.clauses)|] == Clause(Rewrite(parsedUserQuery.value, payloadFields, tiebreaker), Must)
    {
      tiebreaker := request.tie.GetOr(0.0);
      var plfArray := JavaStrings.Split(GetParam(request.params, PayloadsFieldParamName, ""));
      AddAllPayloadFields(plfArray);

      parsedUserQuery := None;
      altUserQuery := None;

      var userQuery := qstr;
      if IsBlank(userQuery) {
        BlankQueryClauses(qstr, request, payloadFields, tiebreaker);
        altUserQuery := request.alternateUserQuery;
        if altUserQuery.None? {
          return false;
        }
        query.Add(altUserQuery.value, Must);
      } else {
        AddUserQuery(query, request, userQuery.value);
      }
      return true;
    }

    /** addMainQuery's branch for a non-blank user query: cleans and parses
        the text, records the parsed query, adds its payload rewrite as a MUST
        clause and the phrase query, if any, as a SHOULD clause. */
    method AddUserQuery(query: MutableBooleanQuery, request: Request, userQuery: string)
      requires !IsBlank(Some(userQuery))
      modifies this, query
      ensures payloadFields == old(payloadFields) && tiebreaker == old(tiebreaker) && altUserQuery == old(altUserQuery)
      ensures query.clauses == old(query.clauses) + MainClauses(Some(userQuery), request, payloadFields, tiebreaker).value
      ensures parsedUserQuery == Some(InPlaceEffect(request.userQuery(Sanitize(request, userQuery), tiebreaker), payloadFields, tiebreaker))
      ensures |query.clauses| > |old(query.clauses)| &&
        query.clauses[|old(query.clauses)|] == Clause(Rewrite(parsedUserQuery.value, payloadFields, tiebreaker), Must)
    {
      var text := request.partialEscape(request.stripUnbalancedQuotes(userQuery));
      text := request.stripIllegalOperators(text);
      assert text == Sanitize(request, userQuery);
      UserQueryClauses(Some(userQuery), request, payloadFields, tiebreaker);
      var parsed := request.userQuery(text, tiebreaker);
      var rewritten := RewriteQueryAsPayloadQuery(parsed);
      // The boolean nodes of the parsed tree are the objects the rewrite
      // updated, so the recorded parsed query now shows them rewritten.
      parsedUserQuery := Some(InPlaceEffect(parsed, payloadFields, tiebreaker));
      InPlaceEffectRewrite(parsed, payloadFields, tiebreaker);
      query.Add(rewritten, Must);
      var phrase := request.phraseQuery(text, tiebreaker);
      if phrase.Some? {
        query.Add(phrase.value, Should);
      }
    }

    /** Collections.addAll(payloadFields, names). */
    method AddAllPayloadFields(names: seq<string>)
      modifies this
      ensures payloadFields == old(payloadFields) + set f | f in names
      ensures tiebreaker == old(tiebreaker) && parsedUserQuery == old(parsedUserQuery) && altUserQuery == old(altUserQuery)
    {
      payloadFields := payloadFields + set f | f in names;
    }

    /** rewriteQueryAsPayloadQuery. */
    method RewriteQueryAsPayloadQuery(input: Query) returns (output: Query)
      ensures output == Rewrite(input, payloadFields, tiebreaker)
      decreases input, 2
    {
      output := HandleQuery(input);
      output := output.(boost := input.boost);
    }

    /** handleQuery. */
    method HandleQuery(input: Query) returns (output: Query)
      ensures output == Dispatch(input, payloadFields, tiebreaker)
      decreases input, 1
    {
      match input
      case TermQuery(_, _) =>
        output := HandleTermQuery(input);
      case PhraseQuery(_, _, _) =>
        output := HandlePhraseQuery(input);
      case DisjunctionMaxQuery(_, _, _) =>
        output := HandleDisMaxQuery(input);
      case BooleanQuery(_, _, _, _) =>
        output := HandleBooleanQuery(input);
      case _ =>
        output := input;
    }

    /** handleTermQuery. */
    method HandleTermQuery(input: Query) returns (output: Query)
      requires input.TermQuery?
      ensures output == TermRewrite(input, payloadFields)
    {
      var term := input.term;
      if term.field !in payloadFields {
        return input;
      }
      output := PayloadTermQuery(term, MaxPayloadFunction, true, DefaultBoost);
    }

    /** handlePhraseQuery: fills an array of span clauses, one per phrase term. */
    method HandlePhraseQuery(input: Query) returns (output: Query)
      requires input.PhraseQuery?
      ensures output == PhraseRewrite(input, payloadFields)
    {
      var terms := input.terms;
      var slop := input.slop;
      var inorder := false;

      if |terms| > 0 && terms[0].field !in payloadFields {
        return input;
      }

      var clauses := new Query[|terms|];
      for i := 0 to |terms|
        invariant forall j :: 0 <= j < i ==> clauses[j] == PayloadTerm(terms[j])
      {
        clauses[i] := PayloadTermQuery(terms[i], MaxPayloadFunction, true, DefaultBoost);
      }
      forall j | 0 <= j < |terms|
        ensures clauses[j] == PayloadClauses(terms)[j]
      {
        PayloadClausesAt(terms, j);
      }
      output := PayloadNearQuery(clauses[..], slop, inorder, DefaultBoost);
    }

    /** handleDisMaxQuery: a new dismax node with the parser's tie-breaker, to
        which the rewritten children are added one by one. */
    method HandleDisMaxQuery(input: Query) returns (output: Query)
      requires input.DisjunctionMaxQuery?
      ensures output == Dispatch(input, payloadFields, tiebreaker)
      decreases input, 0
    {
      var result := DisjunctionMaxQuery([], tiebreaker, DefaultBoost);
      for i := 0 to |input.disjuncts|
        invariant result.DisjunctionMaxQuery? && result.tieBreaker == tiebreaker && result.boost == DefaultBoost
        invariant |result.disjuncts| == i
        invariant forall j :: 0 <= j < i ==> result.disjuncts[j] == Rewrite(input.disjuncts[j], payloadFields, tiebreaker)
      {
        var query := RewriteQueryAsPayloadQuery(input.disjuncts[i]);
        result := result.(disjuncts := result.disjuncts + [query]);
      }
      output := result;
    }

    /** handleBooleanQuery: replaces the query of each clause by its rewrite,
        in place, and returns the same node. */
    method HandleBooleanQuery(input: Query) returns (output: Query)
      requires input.BooleanQuery?
      ensures output == Dispatch(input, payloadFields, tiebreaker)
      decreases input, 0
    {
      var original := input.clauses;
      var clauses := new Clause[|original|](i requires 0 <= i < |original| => original[i]);
      for i := 0 to clauses.Length
        invariant forall j :: 0 <= j < i ==>
          clauses[j] == original[j].(query := Rewrite(original[j].query, payloadFields, tiebreaker))
        invariant forall j :: i <= j < clauses.Length ==> clauses[j] == original[j]
      {
        var clause := clauses[i];
        assert clause == original[i];
        var query := RewriteQueryAsPayloadQuery(clause.query);
        clauses[i] := clause.(query := query);
      }
      output := input.(clauses := clauses[..]);
    }

    /** addDebugInfo: the superclass's entries, then one ("payloadField", f)
        entry per payload field f, in the set's unspecified iteration order. */
    method AddDebugInfo(debugInfo: NamedList, superEntries: seq<(string, string)>)
      modifies debugInfo
      ensures exists order ::
        IsEnumeration(order, payloadFields) &&
        debugInfo.entries == old(debugInfo.entries) + superEntries + PayloadFieldEntries(order)
    {
      debugInfo.AddAll(superEntries);
      ghost var start := debugInfo.entries;
      var remaining := payloadFields;
      ghost var order: seq<string> := [];
      while remaining != {}
        invariant remaining <= payloadFields
        invariant forall i, j :: 0 <= i < j < |order| ==> order[i] != order[j]
        invariant forall x :: x in order <==> x in payloadFields && x !in remaining
        invariant debugInfo.entries == start + PayloadFieldEntries(order)
        decreases remaining
      {
        var field :| field in remaining;
        debugInfo.Add(PayloadFieldDebugKey, field);
        order := order + [field];
        remaining := remaining - {field};
      }
      assert IsEnumeration(order, payloadFields);
    }
  }
}
