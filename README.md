# Payload dismax query parser, modelled in Dafny

`PayloadDisMaxQParser` is a Solr dismax query parser. It parses the user's text
as the standard dismax parser does. It then rewrites the parsed query tree so
that every term and phrase on a *payload field* is scored with the payload
stored on each term occurrence, combined by the maximum-payload function.
The payload fields are listed in the whitespace-separated request parameter
`plf`.

The rewrite dispatches on the kind of query node:

- A term on a payload field becomes a payload term query over the same term.
- A phrase becomes an unordered payload near query with the same slop. Only
  the first term's field is tested, and an empty phrase is always converted.
- A dismax node is rebuilt over its rewritten children. It takes the
  parser's tie-breaker, not its own.
- The clauses of a boolean node are rewritten in place.
- Every other node passes through unchanged.

The top level copies the input's boost onto the result.

The project has four modules, one per concern of the source file:

- `Queries` (`queries.dfy`): the query tree as a datatype (`Term`, `Clause`,
  `Query` with its seven node kinds) and `LeafTerms`, the terms a tree matches on.
- `PayloadRewrite` (`rewrite.dfy`): `rewriteQueryAsPayloadQuery`, `handleQuery`
  and the four `handle*Query` cases as pure functions of the tree, the
  payload-field set and the tie-breaker, with the lemmas about them.
- `JavaStrings` (`java_strings.dfy`): `String.trim()` and `String.split("\\s+")`
  as the parser uses them, including Java's edge cases. A string with no `\s`
  char splits to itself, so `""` splits to `[""]`. A leading empty element is
  kept, trailing empty elements are dropped, and a non-empty string of `\s`
  chars splits to `[]`.
- `PayloadParser` (`parser.dfy`): the parser object as a class. Its fields
  are `payloadFields`, `tiebreaker`, `parsedUserQuery` and `altUserQuery`.
  Each Java method has one mirror method, and two further methods are split
  out of `addMainQuery`: `AddUserQuery`, its branch for a non-blank user
  query, and `AddAllPayloadFields`, its `Collections.addAll` call. Each tree
  method is proved equal to its specification function. The class also holds `addMainQuery`,
  which appends to the caller's boolean query (class `MutableBooleanQuery`),
  and `addDebugInfo`, which appends to a debug list (class `NamedList`).

Boosts and tie-breakers are modelled as `real` values that are only copied,
never computed with. Solr's collaborators are fields of the `Request`
datatype: the escaping helpers, the user-query and phrase-query parsers, and
the alternate query. They are uninterpreted functions and values.

Where the documentation and the code disagree, the model follows the code:

- The Javadoc of `addMainQuery` and of the `plf` constant calls the field
  list comma-separated, but the code splits on whitespace. `category_en,keyword_en`
  is therefore one field name.
- With an empty payload-field set the rewrite is *not* the identity on every
  tree. An empty phrase still becomes an empty near query. A dismax node
  still takes the parser's tie-breaker. `EmptyFieldSetFixedPoint` states
  exactly when it is the identity.
- An absent `plf` puts the empty string into the field set, rather than
  leaving the set empty.

## Model

| member | source | states |
|---|---|---|
| `PayloadRewrite.Rewrite` | src/main/java/brilliantarc.solr/PayloadDisMaxQParser.java:95-99 | the rewritten node always has the input node's boost |
| `PayloadRewrite.Dispatch` | src/main/java/brilliantarc.solr/PayloadDisMaxQParser.java:101-113 | handleQuery's result has the default boost exactly for the nodes it builds (a term on a payload field, an empty phrase or one starting on a payload field, every dismax node), and keeps the input's boost for the nodes it returns as they were, which is why the top level copies the boost |
| `PayloadRewrite.PayloadTerm` | src/main/java/brilliantarc.solr/PayloadDisMaxQParser.java:121 | a payload term query built for a term matches on that term alone and starts at the default boost |
| `PayloadRewrite.TermRewrite` | src/main/java/brilliantarc.solr/PayloadDisMaxQParser.java:115-122 | the term query is replaced exactly when its field is a payload field, and the result matches on the same term either way |
| `PayloadRewrite.PhraseRewrite` | src/main/java/brilliantarc.solr/PayloadDisMaxQParser.java:124-139 | the phrase is returned as it is exactly when it is non-empty and its first term is off the payload fields; either way the result matches on the phrase's terms in their order |
| `PayloadRewrite.NearQueryLeaves` | src/main/java/brilliantarc.solr/PayloadDisMaxQParser.java:133-138 | the near query built for a phrase has the phrase's terms, in order, as its leaves |
| `PayloadRewrite.TermGating` | src/main/java/brilliantarc.solr/PayloadDisMaxQParser.java:115-122 | a term off the payload fields is returned unchanged; a term on one becomes a payload term over the same term with the max-payload function, span scores included, and the input's boost |
| `PayloadRewrite.PhraseGating` | src/main/java/brilliantarc.solr/PayloadDisMaxQParser.java:129-131 | a non-empty phrase whose first term is off the payload fields is returned unchanged, whatever the fields of its other terms |
| `PayloadRewrite.PhraseNearQuery` | src/main/java/brilliantarc.solr/PayloadDisMaxQParser.java:124-139 | an empty phrase, or one whose first term is on a payload field, becomes a near query with the same slop, in-order false and the input's boost, with one clause per phrase term; clause i is a default-boost payload term over term i |
| `PayloadRewrite.PayloadClauses` | src/main/java/brilliantarc.solr/PayloadDisMaxQParser.java:133-136 | the span clause list is exactly as long as the phrase |
| `PayloadRewrite.PayloadClausesAt` | src/main/java/brilliantarc.solr/PayloadDisMaxQParser.java:134-136 | span clause i wraps phrase term i |
| `PayloadRewrite.DisMaxRebuild` | src/main/java/brilliantarc.solr/PayloadDisMaxQParser.java:141-148 | a dismax node becomes a dismax node with the parser's tie-breaker whatever its own was, the input's boost, the same number of children in the same order, child i the rewrite of input child i and so with that child's boost |
| `PayloadRewrite.BooleanInPlace` | src/main/java/brilliantarc.solr/PayloadDisMaxQParser.java:150-155 | a boolean node keeps its clause count, each clause's occurrence flag, its coord and minimum-should-match settings and its boost; each clause's query is replaced by its rewrite |
| `PayloadRewrite.PassThrough` | src/main/java/brilliantarc.solr/PayloadDisMaxQParser.java:101-113 | every node that is not a term, phrase, dismax or boolean query (payload queries included) is returned unchanged |
| `PayloadRewrite.RewriteLeavesNothingRewritable` | src/main/java/brilliantarc.solr/PayloadDisMaxQParser.java:101-155 | after the rewrite no term on a payload field, no empty phrase and no phrase starting on a payload field is reachable through dismax children and boolean clauses, and every reachable dismax node has the parser's tie-breaker |
| `PayloadRewrite.RewriteFixedPoint` | src/main/java/brilliantarc.solr/PayloadDisMaxQParser.java:101-155 | the rewrite returns its input if and only if nothing in it is to be replaced and its dismax nodes already have the parser's tie-breaker |
| `PayloadRewrite.RewriteUnchanged` | src/main/java/brilliantarc.solr/PayloadDisMaxQParser.java:101-155 | the "if" direction of the fixed-point property, by induction on the tree |
| `PayloadRewrite.RewriteIdempotent` | src/main/java/brilliantarc.solr/PayloadDisMaxQParser.java:95-155 | rewriting a rewritten tree changes nothing, so a boolean node that is reached twice and rewritten in place twice ends up as if it were reached once |
| `PayloadRewrite.RewritePreservesTerms` | src/main/java/brilliantarc.solr/PayloadDisMaxQParser.java:95-155 | the terms of the result, left to right, are exactly the terms of the input: none dropped, added or reordered |
| `PayloadRewrite.RewritableWithoutFields` | src/main/java/brilliantarc.solr/PayloadDisMaxQParser.java:115-131 | with no payload fields, the only leaves the rewrite replaces are empty phrases |
| `PayloadRewrite.EmptyFieldSetFixedPoint` | src/main/java/brilliantarc.solr/PayloadDisMaxQParser.java:101-155 | with an empty field set the rewrite returns its input if and only if the tree has no empty phrase and all its dismax nodes already have the tie-breaker |
| `PayloadRewrite.InPlaceEffect` | src/main/java/brilliantarc.solr/PayloadDisMaxQParser.java:77-80 | updating the parsed tree's boolean clauses in place never changes the boost of its root |
| `PayloadRewrite.InPlaceEffectRewrite` | src/main/java/brilliantarc.solr/PayloadDisMaxQParser.java:77-80 | rewriting the parsed tree as the in-place rewrite leaves it gives the same query as rewriting the original, so the tree recorded after line 80 still rewrites to the MUST clause added there |
| `PayloadRewrite.InPlaceEffectKeepsTerms` | src/main/java/brilliantarc.solr/PayloadDisMaxQParser.java:77-80 | the in-place rewrite leaves the parsed tree matching on the same terms in the same order |
| `Queries.FlattenSingletons` | src/main/java/brilliantarc.solr/PayloadDisMaxQParser.java:133-136 | concatenating the one-term lists of a phrase's terms, in order, gives back the phrase's terms |
| `JavaStrings.LeadingTrimmed` | src/main/java/brilliantarc.solr/PayloadDisMaxQParser.java:67 | trim() starts at the first char above U+0020: every char before the index is at or below U+0020, and the char at it, if any, is not |
| `JavaStrings.TrimmedEnd` | src/main/java/brilliantarc.solr/PayloadDisMaxQParser.java:67 | trim() ends after the last char above U+0020: the end stays within its bounds, every char from it to the old end is at or below U+0020, and the char before it, if inside the bounds, is not |
| `JavaStrings.Trim` | src/main/java/brilliantarc.solr/PayloadDisMaxQParser.java:67 | the trimmed text is a contiguous slice of the input that starts and ends above U+0020, and everything cut from either end is at or below U+0020 |
| `JavaStrings.TrimIsEmptyIffBlank` | src/main/java/brilliantarc.solr/PayloadDisMaxQParser.java:67 | the trimmed user query is empty if and only if every char of it is at or below U+0020 |
| `JavaStrings.SpaceFreePrefix` | src/main/java/brilliantarc.solr/PayloadDisMaxQParser.java:53 | the first piece of a split runs up to the first whitespace char, or to the end |
| `JavaStrings.SpaceRun` | src/main/java/brilliantarc.solr/PayloadDisMaxQParser.java:53 | a separator is a maximal run of whitespace chars |
| `JavaStrings.Pieces` | src/main/java/brilliantarc.solr/PayloadDisMaxQParser.java:53 | splitting collects at least one piece |
| `JavaStrings.DropTrailingEmpty` | src/main/java/brilliantarc.solr/PayloadDisMaxQParser.java:53 | only trailing empty strings are removed, and the result does not end with one |
| `JavaStrings.SplitEmpty` | src/main/java/brilliantarc.solr/PayloadDisMaxQParser.java:53 | the empty string splits to the one-element list holding the empty string |
| `JavaStrings.SplitAllSpaces` | src/main/java/brilliantarc.solr/PayloadDisMaxQParser.java:53 | a non-empty string made only of whitespace splits to the empty list |
| `JavaStrings.PiecesSpaceFree` | src/main/java/brilliantarc.solr/PayloadDisMaxQParser.java:53 | no piece contains a whitespace char |
| `JavaStrings.PiecesInnerNonEmpty` | src/main/java/brilliantarc.solr/PayloadDisMaxQParser.java:53 | for a string not starting with whitespace, every piece but the last is non-empty |
| `JavaStrings.Split` | src/main/java/brilliantarc.solr/PayloadDisMaxQParser.java:53 | no element of the split contains whitespace, only the first element can be empty, and the elements joined in order are exactly the non-whitespace chars of the input |
| `JavaStrings.MatchedPiecesShape` | src/main/java/brilliantarc.solr/PayloadDisMaxQParser.java:53 | when the pattern matches, the pieces that remain after trailing empty strings are dropped contain no whitespace and only the first can be empty |
| `JavaStrings.SplitLeadingEmpty` | src/main/java/brilliantarc.solr/PayloadDisMaxQParser.java:53 | the split holds an empty element exactly when the input is empty, or starts with whitespace and has some non-whitespace char |
| `JavaStrings.PiecesJoin` | src/main/java/brilliantarc.solr/PayloadDisMaxQParser.java:53 | the pieces joined with single spaces are the input with each maximal whitespace run turned into one space, so the pieces break exactly at the runs |
| `JavaStrings.PiecesLastNonEmpty` | src/main/java/brilliantarc.solr/PayloadDisMaxQParser.java:53 | for a non-empty input that does not end with whitespace the last piece is not empty, so no trailing empty string is dropped |
| `JavaStrings.SplitBreaksAtRuns` | src/main/java/brilliantarc.solr/PayloadDisMaxQParser.java:53 | for an input that does not end with whitespace, the split elements joined with single spaces are the input with each whitespace run collapsed to one space, a leading run leaving "" as first element |
| `JavaStrings.PiecesEndEmpty` | src/main/java/brilliantarc.solr/PayloadDisMaxQParser.java:53 | for an input that ends with whitespace there are at least two pieces and the last is empty |
| `JavaStrings.SplitBreaksAtRunsTrailing` | src/main/java/brilliantarc.solr/PayloadDisMaxQParser.java:53 | for an input that ends with whitespace, as a plf value on its own indented line does, the split elements joined with single spaces are the input with each whitespace run collapsed to one space, less the final space |
| `PayloadParser.Sanitize` | src/main/java/brilliantarc.solr/PayloadDisMaxQParser.java:74-75 | the text parsed is the user query passed through stripUnbalancedQuotes, then partialEscape, then stripIllegalOperators |
| `PayloadParser.BlankIffAllTrimmed` | src/main/java/brilliantarc.solr/PayloadDisMaxQParser.java:67 | the user query is blank exactly when it is null or none of its chars is above U+0020 |
| `PayloadParser.PlfText` | src/main/java/brilliantarc.solr/PayloadDisMaxQParser.java:53 | the plf parameter, or "" when the request has none |
| `PayloadParser.PlfFields` | src/main/java/brilliantarc.solr/PayloadDisMaxQParser.java:53-54 | no field name a request adds contains a whitespace char |
| `PayloadParser.AbsentPlfAddsEmptyField` | src/main/java/brilliantarc.solr/PayloadDisMaxQParser.java:53-54 | without a plf parameter the request adds exactly the empty string as a field name |
| `PayloadParser.PlfFieldNames` | src/main/java/brilliantarc.solr/PayloadDisMaxQParser.java:53-54 | the empty string becomes a payload field exactly when plf is absent or empty, or starts with whitespace and names some field after it |
| `PayloadParser.MainClauses` | src/main/java/brilliantarc.solr/PayloadDisMaxQParser.java:62-88 | nothing is added (result false) exactly when the user query is null or blank and there is no alternate query; otherwise one MUST clause comes first, optionally followed by one SHOULD clause; a blank query adds only the alternate query as MUST |
| `PayloadParser.MainClausesOfUserQuery` | src/main/java/brilliantarc.solr/PayloadDisMaxQParser.java:73-86 | for a non-blank query, the MUST clause is the fully rewritten parsed query, with its boost and its terms; the SHOULD clause is present exactly when the phrase parser yields a query, and holds that query unrewritten |
| `PayloadParser.EnumerationLength` | src/main/java/brilliantarc.solr/PayloadDisMaxQParser.java:162 | iterating a set without repeats visits as many elements as the set has |
| `PayloadParser.DebugEntriesPerField` | src/main/java/brilliantarc.solr/PayloadDisMaxQParser.java:162-164 | the debug entries added name each payload field exactly once under the key "payloadField", and nothing else |
| `PayloadParser.PayloadDisMaxQParser.constructor` | src/main/java/brilliantarc.solr/PayloadDisMaxQParser.java:38-43 | a new parser has no payload fields and tie-breaker 0 |
| `PayloadParser.PayloadDisMaxQParser.AddMainQuery` | src/main/java/brilliantarc.solr/PayloadDisMaxQParser.java:49-89 | the tie-breaker is the request's (default 0); the payload fields become the old ones plus the request's plf names, so they only grow; the caller's query gains exactly MainClauses, built with the updated fields, and the result says whether anything was added; the parsed and alternate query fields are recorded, the parsed one in the state the in-place rewrite leaves it; for a non-blank query the MUST clause appended first is the rewrite of the recorded parsed query |
| `PayloadParser.PayloadDisMaxQParser.AddUserQuery` | src/main/java/brilliantarc.solr/PayloadDisMaxQParser.java:73-86 | for a non-blank user query, the caller's query gains exactly MainClauses for that query; the first clause added is the MUST rewrite of the parsed query as recorded, and the recorded parsed query is in the state the in-place rewrite leaves it; the payload fields, tie-breaker and alternate query are left alone |
| `PayloadParser.PayloadDisMaxQParser.AddAllPayloadFields` | src/main/java/brilliantarc.solr/PayloadDisMaxQParser.java:54 | the payload fields become the old ones plus every split name; the other parser fields are left alone |
| `PayloadParser.PayloadDisMaxQParser.RewriteQueryAsPayloadQuery` | src/main/java/brilliantarc.solr/PayloadDisMaxQParser.java:95-99 | the method computes `Rewrite` for the parser's current fields and tie-breaker |
| `PayloadParser.PayloadDisMaxQParser.HandleQuery` | src/main/java/brilliantarc.solr/PayloadDisMaxQParser.java:101-113 | the method computes `Dispatch` |
| `PayloadParser.PayloadDisMaxQParser.HandleTermQuery` | src/main/java/brilliantarc.solr/PayloadDisMaxQParser.java:115-122 | the method computes `TermRewrite` |
| `PayloadParser.PayloadDisMaxQParser.HandlePhraseQuery` | src/main/java/brilliantarc.solr/PayloadDisMaxQParser.java:124-139 | the array-filling loop computes `PhraseRewrite` |
| `PayloadParser.PayloadDisMaxQParser.HandleDisMaxQuery` | src/main/java/brilliantarc.solr/PayloadDisMaxQParser.java:141-148 | the accumulating loop computes `Dispatch` of a dismax node |
| `PayloadParser.PayloadDisMaxQParser.HandleBooleanQuery` | src/main/java/brilliantarc.solr/PayloadDisMaxQParser.java:150-155 | the in-place loop over the clause array computes `Dispatch` of a boolean node |
| `PayloadParser.PayloadDisMaxQParser.AddDebugInfo` | src/main/java/brilliantarc.solr/PayloadDisMaxQParser.java:158-165 | the debug list becomes its old entries, then the superclass's entries, then one ("payloadField", f) entry for each payload field f, in some order without repeats |
| `PayloadParser.MutableBooleanQuery.Add` | src/main/java/brilliantarc.solr/PayloadDisMaxQParser.java:72 | adding appends exactly one clause |
| `PayloadParser.NamedList.Add` | src/main/java/brilliantarc.solr/PayloadDisMaxQParser.java:163 | adding appends exactly one entry |
| `PayloadParser.NamedList.AddAll` | src/main/java/brilliantarc.solr/PayloadDisMaxQParser.java:160 | the superclass's debug entries are appended in their order, after the existing ones |

## Left out

- `PayloadSimilarity.java` (the payload decoder) is not part of this model.
  Its only logic is a branch: a non-empty payload is decoded as a float by
  Lucene, and an empty one scores 1.0. The decode is IEEE-754 arithmetic in
  Lucene, which is not visible here.
- `PayloadDisMaxQParserPlugin.java` is not part of this model. It only
  registers the parser.
- Scoring is not modelled. That covers the maximum-payload function, the near
  query's own payload combination (a default in Lucene's three-argument
  constructor), and the dismax tie-break arithmetic. The model records which
  function and which tie-breaker a node carries, not what they compute.
- Solr's collaborators are not re-implemented: `getUserQuery`, `getPhraseQuery`,
  `getAlternateUserQuery`, `getParser`, `parseFieldBoosts`, `partialEscape`,
  `stripUnbalancedQuotes`, `stripIllegalOperators` and the parsing of the
  `tie` float. They are inputs in `Request`. The query fields, phrase fields,
  slop parameters and minimum-should-match they use are folded into those
  functions. The two parsers receive the tie-breaker as an argument.
- A `SyntaxError` from the external parser, or a malformed `tie` value, is not
  modelled. Both propagate out of `addMainQuery` unchanged.
- The superclass's `addDebugInfo` is not modelled. Its entries are a parameter
  of `AddDebugInfo`, and debug values are modelled as strings.
- Phrase term positions are not modelled. `handlePhraseQuery` reads only the
  terms and the slop.
- Object identity is modelled only partly. Query nodes are values. In the
  source, `handleBooleanQuery` updates the parsed tree's boolean clause
  objects in place. The model rebuilds the clause list instead, through the
  method's local clause array. `InPlaceEffect` and the `parsedUserQuery`
  field record the changed state that this leaves behind. Sharing of one node
  at several places in a tree is not modelled.
  `RewriteIdempotent` shows that rewriting such a node twice ends as
  rewriting it once.
- `Collections.addAll` is modelled as a set union, in one step, rather than
  as an iteration over the split array.
- Concurrency and request transport are not modelled. A parser is used by
  one request at a time.
