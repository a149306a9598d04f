# Boolean retrieval and BERT input preparation, in Dafny

This project models the core of a small information-retrieval engine written in C#. The engine has five parts:

- **The inverted-index builder** (`DocumentParser.CreateInvertedIndexAsync` and `InvertedIndexAddOrUpdate`). It walks every document's analysed content tokens and then its title tokens. For each (document, term) pair it either raises the frequency of the existing posting by one or appends the posting `(document, 1)`. A forced rebuild does not clear the index, so the counts pile up on top of the old ones.
- **The boolean query evaluator** (`Search`, `AndConditionPostingList`, `OrConditionPostingList`, `Merge`).
  - A term is looked up by the first token the analyser yields.
  - AND is a left fold of a two-pointer merge.
  - OR concatenates the operand lists without removing duplicates.
  - Not and None give null.
- **The boolean query parser** (`BooleanQueryParser`). It is a recursive-descent parser over the fields `query` and `position`. It reads `#op(e1, e2, ...)` and `'term'`, and it fails by throwing.
- **The evaluation metrics** (`Precision`, `ReCall`, `FMeasure`). They appear in DocumentParser.cs and, word for word, in BertEmbeddings.cs. `ReCall` divides two integers before the result becomes a decimal.
- **The BERT input preparation** (`Tokenizing`, `LoadVocab`, `PreProcessText`, `GenerateAttentionMask`, `GenerateTokenTypeIds`).

## Modules

| module | file | contents |
|---|---|---|
| `Wrappers` | `wrappers.dfy` | `Option` (C# null) and `Result` (a thrown exception). |
| `Models` | `models.dfy` | The records under `Models/`: `Operator` with its enum values, `QueryNode`, `PostingListInfo`, `PostingListModel` with its computed `Count`, `TokenModel`, `ResultModel` and `Document`. |
| `IndexBuilder` | `index_builder.dfy` | The index build as functions: `AddOrUpdate` is one call of `InvertedIndexAddOrUpdate`, `AddTerms` is one token list and `Build` is the whole loop. The lemmas state frequencies, counts, one posting per document, and ascending order. |
| `QueryEvaluation` | `query_evaluation.dfy` | What `Search` computes: `MergeOf`, `AndOf`, `OrOf` and `Evaluate`, with the intersection, concatenation and null-operator lemmas. |
| `DocumentParsing` | `document_parser.dfy` | The class `DocumentParser`, with the index as a `map` field. Its methods (the in-place build loop, `Search` and the `Merge` loop) are proved equal to the functions above. |
| `Metrics` | `metrics.dfy` | Precision, recall and F-measure over `real`, with a division by zero as `Err(DivideByZero)`. |
| `QuerySyntax` | `query_syntax.dfy` | The parser as functions of the text and a cursor, plus a printer `Show`. The round trip `ParseShow` proves that parsing printed text gives back the tree. Concrete accepted and rejected queries are included. |
| `BooleanQueryParsing` | `boolean_query_parser.dfy` | The class `BooleanQueryParser`, with the fields `query` and `position`. Each method is proved to return what the matching `QuerySyntax` function returns and to leave the cursor where that function says. |
| `Bert` | `bert.dfy` | Lower-casing, trimming, splitting and tokenizing. The vocabulary fold, the 256 input ids, the attention mask and the class `BertEmbeddings`. |

Integers in the model are unbounded. C# `decimal` is modelled as `real`. Text is `seq<char>`. The analyser the engine uses is a function parameter `analyze: string -> seq<string>`.

## Model

| member | source | states |
|---|---|---|
| `Models.OperatorValue` | Models/Condition.cs:17-20 | Each operator has its C# enum value: None is 0, Not is 1, And is 2 and Or is 3. |
| `Models.OperatorValueInjective` | Models/Condition.cs:17-20 | The four operators have four distinct enum values. |
| `Models.NewLogicalNode` | Models/Condition.cs:7-11 | A fresh logical node has operator None and an empty operand list. |
| `Models.NewTermNode` | Models/Condition.cs:12-15 | A fresh term node has the empty term. |
| `Models.NewPostingListModel` | Models/PostingListModel.cs:5-6 | A fresh posting list is empty and its Count is 0. |
| `Models.CountAppend` | Models/PostingListModel.cs:5 | Appending a posting raises Count by exactly that posting's frequency. |
| `Models.CountBump` | Models/PostingListModel.cs:5 | Raising one posting's frequency in place raises the computed Count by one. |
| `IndexBuilder.FindPosting` | DocumentParser.cs:261 | The position of the first posting of a document, or the length of the list when there is none. No earlier posting has that document. |
| `IndexBuilder.AddOrUpdate` | DocumentParser.cs:253-276 | After one add-or-update, the keys are the old keys plus the term, and every other term's posting list is unchanged. |
| `IndexBuilder.AddTerms` | DocumentParser.cs:214-221 | After adding a token list, the keys are the old keys plus the tokens, and every key not among the tokens keeps its list. |
| `IndexBuilder.AddDocument` | DocumentParser.cs:212-222 | After adding one entry, the keys are the old keys plus its content and title tokens, and every key it does not mention keeps its list. |
| `IndexBuilder.BuildKeys` | DocumentParser.cs:212-222 | After the build loop, the keys are the old keys plus every token of every entry, and a key that no entry mentions keeps its list. |
| `IndexBuilder.AddOrUpdateExisting` | DocumentParser.cs:259-269 | When the term already has a posting for the document, exactly that posting's frequency rises by one; the list is otherwise unchanged. |
| `IndexBuilder.AddOrUpdateFresh` | DocumentParser.cs:259-275 | When the term has no posting for the document, `(d, 1)` is appended to the end of its list. A new term gets the list `[(d, 1)]`. |
| `IndexBuilder.FrequencyAppend` | DocumentParser.cs:264 | Appending a posting adds its frequency to that document's total and changes no other document's total. |
| `IndexBuilder.FrequencyBump` | DocumentParser.cs:268 | Bumping one posting raises its document's total by one and leaves every other document's total alone. |
| `IndexBuilder.AddOrUpdateFrequency` | DocumentParser.cs:253-276 | One add-or-update raises the frequency of that (term, document) pair by one and leaves every other pair alone. |
| `IndexBuilder.AddOrUpdateCount` | DocumentParser.cs:253-276 | One add-or-update raises the term's Count by one and leaves every other term's Count alone. |
| `IndexBuilder.BumpValid` | DocumentParser.cs:268 | A bump keeps one posting per document, each with a frequency of at least 1. |
| `IndexBuilder.AppendValid` | DocumentParser.cs:264 | Appending `(d, 1)` to a list without `d` keeps one posting per document, each with a frequency of at least 1. |
| `IndexBuilder.AddOrUpdateValid` | DocumentParser.cs:253-276 | The term's list keeps one posting per document, each with a frequency of at least 1. |
| `IndexBuilder.AddOrUpdateWellFormed` | DocumentParser.cs:253-276 | Every list of the index keeps one posting per document, each with a frequency of at least 1. |
| `IndexBuilder.BumpAscending` | DocumentParser.cs:268 | A bump keeps a list strictly ascending by document id, with no id above the current document. |
| `IndexBuilder.AppendAscending` | DocumentParser.cs:264 | Appending the current document to a list whose ids are all below it keeps the list strictly ascending. |
| `IndexBuilder.AddOrUpdateListAscending` | DocumentParser.cs:253-276 | The term's list stays strictly ascending, with no id above the current document. |
| `IndexBuilder.AddOrUpdateAscending` | DocumentParser.cs:253-276 | When no id in the index exceeds the current document, every list stays strictly ascending and that bound still holds. |
| `IndexBuilder.AddTermsFrequency` | DocumentParser.cs:214-221 | One token list raises the frequency of (t, d) by the number of occurrences of t in the list. Other documents are untouched. |
| `IndexBuilder.AddTermsCount` | DocumentParser.cs:214-221 | One token list raises each term's Count by its number of occurrences in the list. |
| `IndexBuilder.AddTermsWellFormed` | DocumentParser.cs:214-221 | One token list keeps one posting per document, each with a frequency of at least 1. |
| `IndexBuilder.AddTermsAscending` | DocumentParser.cs:214-221 | One token list keeps every list strictly ascending, with no id above the current document. |
| `IndexBuilder.BuildFrequency` | DocumentParser.cs:212-222 | The build adds the occurrences of t in the content and title tokens of d to the frequency the index already held. A forced rebuild accumulates. |
| `IndexBuilder.BuildCount` | DocumentParser.cs:212-222 | The build adds each term's total number of occurrences to its Count. |
| `IndexBuilder.BuildWellFormed` | DocumentParser.cs:212-222 | The build keeps one posting per document, each with a frequency of at least 1. |
| `IndexBuilder.BuildAscending` | DocumentParser.cs:212-222 | Documents in ascending id order, on top of an index holding only smaller ids, leave every list strictly ascending. |
| `IndexBuilder.FrequencyOfUnique` | DocumentParser.cs:261 | In a list with one posting per document, a document's total is the frequency of its posting, or 0 when it has none. |
| `IndexBuilder.BuildFromEmpty` | DocumentParser.cs:212-222 | Built from scratch, each (term, document) pair has at most one posting. Its frequency is the number of occurrences of the term in that document's content and title tokens. A term's Count is its total number of occurrences. |
| `IndexBuilder.BuildFromEmptyAscending` | DocumentParser.cs:212-222 | Built from scratch over documents in ascending id order, every posting list is strictly ascending by document id. |
| `QueryEvaluation.MergeOf` | DocumentParser.cs:342-365 | The merge result is a subsequence of the first list. Every element comes from the first list and has a document in the second. |
| `QueryEvaluation.MergeStep` | DocumentParser.cs:347-363 | Proof helper: one iteration of the merge loop at cursors i and j: equal ids keep the element and advance both cursors; otherwise the smaller side advances. |
| `QueryEvaluation.FoldMerge` | DocumentParser.cs:332-336 | The left fold of Merge keeps only elements of the first list whose document occurs in every later list. |
| `QueryEvaluation.Evaluate` | DocumentParser.cs:278-316 | Every posting that Search returns is stored in the index under some term. |
| `QueryEvaluation.EvaluateEach` | DocumentParser.cs:301-306 | The operands are evaluated one by one, in order, and each operand's postings come from the index. |
| `QueryEvaluation.PresentFromIndex` | DocumentParser.cs:301-306 | Dropping the null operand results keeps every remaining posting an index posting. |
| `QueryEvaluation.FilterInMembers` | DocumentParser.cs:342-365 | The reference intersection keeps exactly the elements of the first list whose document occurs in the second, and keeps the order. |
| `QueryEvaluation.MergeSorted` | DocumentParser.cs:342-365 | On strictly ascending inputs, Merge equals the reference intersection. |
| `QueryEvaluation.MergeIntersection` | DocumentParser.cs:342-365 | On strictly ascending inputs, x is in Merge(a, b) if and only if x is in a and b has a posting for x's document; the result is strictly ascending. |
| `QueryEvaluation.AndOfSingle` | DocumentParser.cs:328-337 | AND of a single list is that same list. |
| `QueryEvaluation.FoldMergeSorted` | DocumentParser.cs:332-336 | Over ascending lists, the fold keeps exactly the elements of the first list whose document occurs in every later list; the result is strictly ascending. |
| `QueryEvaluation.AndOfSorted` | DocumentParser.cs:328-340 | AND of one or more strictly ascending lists is non-null, strictly ascending, and holds exactly the first list's postings whose document is in every list. |
| `QueryEvaluation.OrOfLength` | DocumentParser.cs:318-326 | The length of OR is the sum of the operand lengths, and each document keeps all of its postings (no deduplication). |
| `QueryEvaluation.OrOf` | DocumentParser.cs:318-326 | The OR list is as long as all operand lists together and contains every posting of every operand. |
| `QueryEvaluation.AndOf` | DocumentParser.cs:328-340 | AND is null exactly when there are no operand lists. Every posting of a result comes from the first list, and its document appears in every other list. |
| `QueryEvaluation.PostingsOfAppend` | DocumentParser.cs:323 | AddRange adds the postings of a document from both lists. |
| `QueryEvaluation.OrMembers` | DocumentParser.cs:318-326 | An element is in the OR result if and only if it is in some operand list. |
| `QueryEvaluation.EvaluateUnsupported` | DocumentParser.cs:307-312 | A Not or None node is null, whatever its operands. |
| `QueryEvaluation.PresentMembers` | DocumentParser.cs:300-306 | The operand lists that are kept are exactly the non-null operand results: null results are skipped. |
| `QueryEvaluation.EvaluateOr` | DocumentParser.cs:298-312 | An OR node is never null. Its result holds a posting exactly when some non-null operand result holds it. |
| `QueryEvaluation.EvaluateTerm` | DocumentParser.cs:280-297 | A term node is the posting list of the first analysed token. It is null when the analyser yields nothing or the token is not in the index. |
| `QueryEvaluation.EvaluateTermAscending` | DocumentParser.cs:280-297 | Over an index whose posting lists are strictly ascending, a term's result is ascending. |
| `QueryEvaluation.EvaluateAndAscending` | DocumentParser.cs:298-313 | An AND whose operands yield ascending lists is null exactly when every operand is null. Otherwise its result is ascending again, so nested ANDs are covered. It holds exactly the postings of the first non-null operand result whose document appears in every other non-null one. |
| `QueryEvaluation.PresentAscending` | DocumentParser.cs:301-306 | Dropping null results keeps every remaining list ascending. |
| `DocumentParsing.DocumentParser.constructor` | DocumentParser.cs:25-28 | Documents, tokens, judgments and the inverted index all start empty. |
| `DocumentParsing.DocumentParser.InvertedIndexAddOrUpdate` | DocumentParser.cs:253-276 | The call fails exactly when SingleOrDefault would throw (two postings of the document), and then the index is unchanged. Otherwise the new index is AddOrUpdate of the old one. |
| `DocumentParsing.DocumentParser.CreateInvertedIndex` | DocumentParser.cs:186-231 | No documents means no change. An existing index without force means no change. An empty index with a cached copy (without force) loads that copy. Otherwise the build runs on top of the current index and cannot fail when that index is well formed. |
| `DocumentParsing.DocumentParser.AddTokens` | DocumentParser.cs:214-221 | One token list of the build loop gives AddTerms of the old index, and it keeps a well-formed index well formed. |
| `DocumentParsing.DocumentParser.AddTermChecked` | DocumentParser.cs:216 | One add-or-update of the loop gives AddOrUpdate of the old index, and it keeps a well-formed index well formed. |
| `DocumentParsing.DocumentParser.Search` | DocumentParser.cs:278-316 | The recursive walk returns Evaluate of the current index and changes nothing. |
| `DocumentParsing.DocumentParser.OrConditionPostingList` | DocumentParser.cs:318-326 | The AddRange loop returns the concatenation of the operand lists. |
| `DocumentParsing.DocumentParser.AndConditionPostingList` | DocumentParser.cs:328-340 | Null for no lists; otherwise the left fold of Merge from the first list. |
| `DocumentParsing.DocumentParser.Merge` | DocumentParser.cs:342-365 | The two-pointer loop returns MergeOf of its inputs. |
| `DocumentParsing.UniquePostingsOf` | DocumentParser.cs:261 | A list with one posting per document never makes SingleOrDefault throw. |
| `DocumentParsing.PostingsOfPositive` | DocumentParser.cs:261 | A document with a posting is found by the lookup. |
| `Metrics.RelevantDocIds` | DocumentParser.cs:382-383 | d is a relevant id of the query if and only if some judgment row names that query and d. |
| `Metrics.RelevantDocIdsRows` | DocumentParser.cs:390-391 | There is one relevant id per judgment row of the query, so ReCall divides by the number of rows that name the query. |
| `Metrics.CountRelevant` | DocumentParser.cs:384 | The count of relevant retrieved entries never exceeds the number of entries. |
| `Metrics.CountRelevantPositions` | DocumentParser.cs:384 | The relevant count is the number of retrieved positions whose document is relevant, duplicates included. |
| `Metrics.RelevantRetrieved` | DocumentParser.cs:384 | The relevant retrieved count is at most the size of a non-null result (and 0 for null). |
| `Metrics.Precision` | DocumentParser.cs:380-387 | Precision fails exactly for a null or empty result. Otherwise it lies in [0, 1], and precision times the retrieved count equals the relevant retrieved count. |
| `Metrics.ReCall` | DocumentParser.cs:388-395 | Recall fails exactly when no judgment row names the query. Otherwise it is the whole number k with k·n <= r < (k+1)·n, where r counts the relevant retrieved entries and n the judgment rows (integer division). So it is 0 exactly when fewer relevant documents were retrieved than the query has judgment rows. |
| `Metrics.IntegerQuotient` | DocumentParser.cs:394 | The C# int quotient turned into a decimal is a non-negative whole number k with k·n <= a < (k+1)·n. It is 0 exactly when a < n. |
| `Metrics.NoJudgments` | DocumentParser.cs:390-394 | A query has no relevant ids exactly when no judgment row names it. |
| `Metrics.Combine` | DocumentParser.cs:401-402 | The F-measure of P and R is 0 exactly when P or R is 0, and it lies between the smaller and the larger of the two. |
| `Metrics.FMeasure` | DocumentParser.cs:397-403 | FMeasure fails exactly when precision or recall fails; otherwise it is the combination of the two. |
| `Metrics.CombineExamples` | DocumentParser.cs:401-402 | Both zero gives 0, and P = R = 0.5 gives 0.5. |
| `Metrics.ThreeDocumentExample` | DocumentParser.cs:380-403 | Retrieving 1, 3, 2 for a query judged relevant to 1 and 2 gives precision 2/3, recall 1 and F-measure 0.8. |
| `Metrics.ReCallTruncates` | DocumentParser.cs:394 | Retrieving one of two judged documents gives recall 0, not 0.5. |
| `Metrics.DuplicatesExceedOne` | DocumentParser.cs:388-395 | An OR result that lists a judged document twice gives recall 2 and F-measure 4/3. |
| `QuerySyntax.RemoveNewlines` | BooleanQueryParser.cs:31 | The result is no longer than the input. A character occurs in it exactly when it occurs in the input and is not '\n' or '\r'. Input without line breaks is unchanged. Order and multiplicity are stated by the next two rows. |
| `QuerySyntax.RemoveNewlinesAppend` | BooleanQueryParser.cs:31 | Removing line breaks distributes over concatenation, so it works character by character and keeps the order. |
| `QuerySyntax.RemoveNewlinesChar` | BooleanQueryParser.cs:31 | A single '\n' or '\r' is removed, and any other single character is kept. |
| `QuerySyntax.ParseQueryIgnoresLineBreaks` | BooleanQueryParser.cs:29-34 | Removing line breaks twice is the same as once, so parsing text whose line breaks are already removed gives the same result. |
| `QuerySyntax.SkipWs` | BooleanQueryParser.cs:109-115 | The cursor stops at the first non-white-space position or at the end, never past it. Everything skipped is white space. |
| `QuerySyntax.ExpectAt` | BooleanQueryParser.cs:101-107 | On success the cursor ends just past the expected character, and only white space lies before it. On failure the input ran out, or the error names the character and the position after the white space. |
| `QuerySyntax.LetterRunEnd` | BooleanQueryParser.cs:70-74 | The operator name is the maximal run of letters after '#'. |
| `QuerySyntax.QuoteEnd` | BooleanQueryParser.cs:89-94 | The position of the next quote, with no quote before it, or an index-out-of-range failure when there is none. |
| `QuerySyntax.TermAt` | BooleanQueryParser.cs:86-99 | A parsed term contains no quote, and the cursor moves forward. |
| `QuerySyntax.ExprAt` | BooleanQueryParser.cs:36-66 | A parsed expression always moves the cursor forward, and never past the end. |
| `QuerySyntax.LogicalExprAt` | BooleanQueryParser.cs:40-59 | A parsed logical node moves the cursor past its '#'. |
| `QuerySyntax.ParenthesizedAt` | BooleanQueryParser.cs:46-57 | A parsed operand list in parentheses moves the cursor forward. |
| `QuerySyntax.OperandsAt` | BooleanQueryParser.cs:48-55 | The operand loop stops in front of a ')'. |
| `QuerySyntax.OperandsAfter` | BooleanQueryParser.cs:51-55 | After an operand and an optional comma, the loop still stops in front of a ')'. |
| `QuerySyntax.OperatorNameRoundTrip` | BooleanQueryParser.cs:77-83 | The switch maps "not", "and" and "or" to Not, And and Or, and maps the empty name to None. |
| `QuerySyntax.OperatorNamed` | BooleanQueryParser.cs:77-83 | The operator is None exactly when the name is not "not", "and" or "or"; otherwise the operator's printed name is the name. |
| `QuerySyntax.ExpectAtChar` | BooleanQueryParser.cs:101-107 | The expected character at the cursor is consumed. |
| `QuerySyntax.TermAtQuoted` | BooleanQueryParser.cs:86-99 | `'t'` with no quote in t is read as exactly t, untrimmed. |
| `QuerySyntax.LogicalAt` | BooleanQueryParser.cs:40-59 | `#name(` followed by operands and `)` is a logical node with the named operator and those operands. |
| `QuerySyntax.LogicalOpAt` | BooleanQueryParser.cs:40-59 | The printed name of an operator followed by operands parses to that operator. |
| `QuerySyntax.LogicalStep` | BooleanQueryParser.cs:38-45 | Proof helper: once the white space is skipped, a '#' starts a logical node. |
| `QuerySyntax.TermStep` | BooleanQueryParser.cs:60-63 | Proof helper: once the white space is skipped, a quote starts a term node. |
| `QuerySyntax.ExprRunsOut` | BooleanQueryParser.cs:38-40 | Only white space left means an index-out-of-range failure. |
| `QuerySyntax.AfterOperand` | BooleanQueryParser.cs:51-54 | Proof helper: after an operand, white space and an optional comma are skipped before the loop goes on. |
| `QuerySyntax.LogicalParsed` | BooleanQueryParser.cs:40-59 | An operator name and a parenthesised operand list make the logical node. |
| `QuerySyntax.ParenthesizedStep` | BooleanQueryParser.cs:46-57 | Proof helper: '(' then the operands then ')' is the parenthesised list. |
| `QuerySyntax.LetterRunEndAt` | BooleanQueryParser.cs:71-74 | All-letter text followed by a non-letter is exactly one operator name. |
| `QuerySyntax.OperandsLast` | BooleanQueryParser.cs:48-55 | An operand right before ')' is the last operand. |
| `QuerySyntax.OperandsStep` | BooleanQueryParser.cs:50 | Proof helper: one parsed operand continues the loop from where it ended. |
| `QuerySyntax.OperandsComma` | BooleanQueryParser.cs:50-55 | An operand followed by a comma is followed by the remaining operands. |
| `QuerySyntax.OperandsNoComma` | BooleanQueryParser.cs:48-55 | The comma is optional: after an operand and white space, any character other than a comma starts the rest of the operand list. |
| `QuerySyntax.CommaAfter` | BooleanQueryParser.cs:53-54 | Proof helper: a comma right after an operand is consumed. |
| `QuerySyntax.ShowParses` | BooleanQueryParser.cs:36-66 | The printed text of a tree whose terms contain no quote parses back to that tree, ending right after it. |
| `QuerySyntax.ShowLogicalParses` | BooleanQueryParser.cs:40-59 | A printed logical node parses back to the node. |
| `QuerySyntax.ShowAllParses` | BooleanQueryParser.cs:48-55 | Printed operands separated by commas and followed by ')' parse back to the operands. |
| `QuerySyntax.ShowAllNoneParses` | BooleanQueryParser.cs:48 | `#op()` has zero operands. |
| `QuerySyntax.ShowAllOneParses` | BooleanQueryParser.cs:48-55 | A single printed operand followed by ')' parses back to that operand. |
| `QuerySyntax.ShowAllMoreParses` | BooleanQueryParser.cs:48-55 | Several printed operands parse back to the list of operands. |
| `QuerySyntax.FirstOperandParses` | BooleanQueryParser.cs:50-54 | The first of several printed operands parses back, up to its comma. |
| `QuerySyntax.OperandsCons` | BooleanQueryParser.cs:48-55 | The first operand, then a comma, then the others parse to the whole list. |
| `QuerySyntax.ParseShow` | BooleanQueryParser.cs:29-34 | Parse gives back the printed tree whatever text follows it, so trailing text is ignored. |
| `QuerySyntax.ParseQuery` | BooleanQueryParser.cs:29-34 | A query that is empty or only white space (line breaks included) fails with an index out of range. |
| `QuerySyntax.ParseAndExample` | BooleanQueryParser.cs:29-66 | `#and('a','b')` is an And node over the terms a and b. |
| `QuerySyntax.ParseTermExample` | BooleanQueryParser.cs:60-63 | `'x'` is the term x. |
| `QuerySyntax.ParseEmptyOrExample` | BooleanQueryParser.cs:46-58 | `#or()` is an Or node with no operands. |
| `QuerySyntax.ExprInvalid` | BooleanQueryParser.cs:65 | A character other than '#' or a quote fails with InvalidSyntax. |
| `QuerySyntax.OperandFails` | BooleanQueryParser.cs:50 | A failing operand fails the operand loop with the same error. |
| `QuerySyntax.OperandsRunOut` | BooleanQueryParser.cs:51-53 | Input that ends right after an operand fails with index out of range. |
| `QuerySyntax.ParenthesizedFails` | BooleanQueryParser.cs:46-57 | A failing operand list fails the parenthesised list. |
| `QuerySyntax.LogicalFails` | BooleanQueryParser.cs:40-59 | A failing parenthesised list fails the logical node. |
| `QuerySyntax.AndOpens` | BooleanQueryParser.cs:42-46 | After `#and(` the operator name ends at 4 and the operands start at 5. |
| `QuerySyntax.UnclosedOperands` | BooleanQueryParser.cs:48-53 | The operand list of `#and('a'` runs out after its first operand. |
| `QuerySyntax.ParseUnclosed` | BooleanQueryParser.cs:29-66 | `#and('a'` fails with index out of range. |
| `QuerySyntax.ParseInvalidSyntax` | BooleanQueryParser.cs:48-65 | `#and( )` fails with InvalidSyntax, because the loop tests for ')' before skipping white space. |
| `QuerySyntax.ParseInvalidStart` | BooleanQueryParser.cs:65 | `x` fails with InvalidSyntax. |
| `BooleanQueryParsing.OperandLoopStep` | BooleanQueryParser.cs:48-55 | Proof helper: one iteration of the operand loop keeps the loop invariant: the operands read so far, followed by the rest of the loop. |
| `BooleanQueryParsing.OperandLoopEnds` | BooleanQueryParser.cs:48-57 | The loop stops at the end of the input (index out of range) or in front of ')' (the operands read). |
| `BooleanQueryParsing.OperandLoopRunsOut` | BooleanQueryParser.cs:51-53 | Input that ends right after an operand fails the loop. |
| `BooleanQueryParsing.OperandLoopFails` | BooleanQueryParser.cs:50 | A failing operand fails the loop with the same error. |
| `BooleanQueryParsing.BooleanQueryParser.constructor` | BooleanQueryParser.cs:11-12 | The query starts empty and the cursor at 0. |
| `BooleanQueryParsing.BooleanQueryParser.Parse` | BooleanQueryParser.cs:29-34 | The stored query is the input without line breaks, and the result is ParseQuery of the input. |
| `BooleanQueryParsing.BooleanQueryParser.ParseExpression` | BooleanQueryParser.cs:36-66 | The node or the error equals ExprAt from the old cursor, and the cursor ends where ExprAt says. |
| `BooleanQueryParsing.BooleanQueryParser.ParseLogical` | BooleanQueryParser.cs:40-59 | The '#' branch agrees with LogicalExprAt, both for the node and for the cursor. |
| `BooleanQueryParsing.BooleanQueryParser.ParseOperands` | BooleanQueryParser.cs:48-55 | The operand loop agrees with OperandsAt, both for the operands and for the cursor. |
| `BooleanQueryParsing.BooleanQueryParser.ParseOperator` | BooleanQueryParser.cs:68-84 | The cursor ends after the maximal letter run, and the operator is the switch on that run. |
| `BooleanQueryParsing.BooleanQueryParser.ParseTerm` | BooleanQueryParser.cs:86-99 | The term or the error agrees with TermAt, both for the term and for the cursor. |
| `BooleanQueryParsing.BooleanQueryParser.Expect` | BooleanQueryParser.cs:101-107 | Expect succeeds exactly when ExpectAt does and leaves the cursor where ExpectAt says; otherwise it reports ExpectAt's error. |
| `BooleanQueryParsing.BooleanQueryParser.SkipWhitespace` | BooleanQueryParser.cs:109-115 | The cursor ends at SkipWs of the old cursor: the first non-white-space position or the end. |
| `Bert.LowerChar` | BertEmbeddings.cs:142 | A lowered character is never an upper-case letter. Upper-case letters move to lower case, and every other character is kept. |
| `Bert.ToLower` | BertEmbeddings.cs:142 | Lowering keeps the length and lowers each character in place. |
| `Bert.ToLowerIdempotent` | BertEmbeddings.cs:142 | Lowering twice is lowering once, and white space stays where it was. |
| `Bert.TrailingStart` | BertEmbeddings.cs:142 | The start of the maximal white-space suffix. |
| `Bert.Trim` | BertEmbeddings.cs:142 | A trimmed text neither starts nor ends with white space. It is empty exactly when the text is all white space. |
| `Bert.TrimDropsOnlyWhiteSpace` | BertEmbeddings.cs:142 | Trim is a contiguous slice of the text, and everything outside it is white space. |
| `Bert.TrimTrimmed` | BertEmbeddings.cs:142 | Text with no white space at either end is unchanged by Trim, so Trim is idempotent. |
| `Bert.IndexOf` | BertEmbeddings.cs:143 | The first separator position, or the length when there is none. |
| `Bert.Split` | BertEmbeddings.cs:143 | Split gives at least one piece, and no piece contains the separator. |
| `Bert.JoinSplit` | BertEmbeddings.cs:143 | Joining the pieces of Split with the separator gives the text back. |
| `Bert.SplitJoin` | BertEmbeddings.cs:143 | Pieces without the separator come back unchanged from Split of their Join, empty pieces included. |
| `Bert.Tokenizing` | BertEmbeddings.cs:138-147 | There is at least one token, and no token contains a space. |
| `Bert.TokenizingJoin` | BertEmbeddings.cs:138-147 | The tokens joined with single spaces give the lowered, trimmed text. |
| `Bert.TokenizingEmpty` | BertEmbeddings.cs:138-147 | Empty text gives one empty token. |
| `Bert.TokenizingTwoSpaces` | BertEmbeddings.cs:138-147 | `" A  b "` gives `["a", "", "b"]`: two spaces in a row give an empty token. |
| `Bert.TrimmedExample` | BertEmbeddings.cs:142 | `" a  b "` trims to `"a  b"`. |
| `Bert.TryAdd` | BertEmbeddings.cs:188 | An existing key is never overwritten, and a new key gets the given value. |
| `Bert.AddLines` | BertEmbeddings.cs:184-190 | The keys are the old keys plus the lines, and every old key keeps its value. |
| `Bert.FirstIndex` | BertEmbeddings.cs:186-189 | The index of the first line equal to a word. |
| `Bert.AddLinesFirst` | BertEmbeddings.cs:186-189 | A new word gets the index of its first line; later duplicates do not move it. |
| `Bert.TokenId` | BertEmbeddings.cs:241-243 | A token has no id exactly when neither it nor "UNK" is in the vocabulary. A token in the vocabulary gets its own id, and any other token gets the id of "UNK". |
| `Bert.MapTokens` | BertEmbeddings.cs:239-244 | A successful mapping gives one id per token, and the mapping always succeeds when "UNK" is in the vocabulary. |
| `Bert.MapTokensMeaning` | BertEmbeddings.cs:239-244 | Mapping fails exactly when some token has no id. Otherwise it gives one id per token, in order. |
| `Bert.MapTokensExtend` | BertEmbeddings.cs:241-243 | One more token appends its id. |
| `Bert.MapTokensStuck` | BertEmbeddings.cs:243 | A token with no id (KeyNotFound on "UNK") fails the whole mapping. |
| `Bert.Fit` | BertEmbeddings.cs:245-256 | Exactly n ids: a prefix of the given ids, then zeros. |
| `Bert.FitStep` | BertEmbeddings.cs:252-255 | Proof helper: one more padding zero extends the fitted list by one. |
| `Bert.InputIdsShape` | BertEmbeddings.cs:232-265 | PreProcessText fails exactly when "UNK" is missing and some framed token is not in the vocabulary. Otherwise there are exactly 256 ids: the ids of "[CLS]", the tokens and "[SEP]" (cut off at 256), then zeros. |
| `Bert.InputIds` | BertEmbeddings.cs:232-265 | Successful input ids are exactly 256 long, and they always exist when "UNK" is in the vocabulary. |
| `Bert.AttentionMask` | BertEmbeddings.cs:155 | The mask has the length of the ids, with 1 exactly where the id is positive and 0 elsewhere. |
| `Bert.MaskMarksTokens` | BertEmbeddings.cs:153-162 | The mask of the input ids has 256 entries. At a position holding a framed token, it is 1 exactly when that token's id is positive. It is 0 on every padding position. |
| `Bert.LoadedFirstLineIsZero` | BertEmbeddings.cs:184-190 | Loading into an empty vocabulary gives the first line id 0, so the mask treats that token like padding. |
| `Bert.BertEmbeddings.constructor` | BertEmbeddings.cs:26 | The vocabulary starts empty. |
| `Bert.BertEmbeddings.LoadVocab` | BertEmbeddings.cs:179-193 | The new vocabulary is the old one with TryAdd(line i, i) for each line of the text split on '\n'. |
| `Bert.BertEmbeddings.PreProcessText` | BertEmbeddings.cs:232-265 | A fresh 256-entry tensor holding InputIds of the text, or no tensor exactly where InputIds fails. |
| `Bert.BertEmbeddings.GenerateAttentionMask` | BertEmbeddings.cs:153-162 | A fresh tensor holding the mask of the ids. |
| `Bert.BertEmbeddings.ToTensor` | BertEmbeddings.cs:258-262 | The tensor filled from an id list is a fresh array holding exactly those ids. |
| `Bert.BertEmbeddings.GenerateTokenTypeIds` | BertEmbeddings.cs:148-152 | A fresh all-zero tensor of the given length. |

## Left out

- The Redis cache (Database.cs) and the cache reads and writes in DocumentParser.cs (`FetchAllDocumentsAsync`, `TokenizingAsync`, `CreateInvertedIndexAsync`) are external storage. The cached index is the parameter `cached` of `CreateInvertedIndex`, and the write-back at the end of the build is not modelled.
- File loading and regex field extraction are left out: `ReadDocumentsAsync`, `LoadRelFile`, `BooleanQueryParser.LoadFile`, `Quires` and the `GeneratedRegex` members. They are file I/O and a regex engine. `LoadVocab` takes the file's text as its argument.
- The Lucene analyser (`GetAnalyzer`, `TokenizingAsync`, the token stream in `Search`) is a foreign library. It appears as the function parameter `analyze`, and the analysed tokens of each document are given as `TokenModel` values.
- ONNX inference (`GetEmbeddings`, the `InferenceSession`), the float-scored `BertEmbeddings.Search` and Similarity.cs are left out: they are a foreign neural model and floating-point scoring.
- Console and CSV output (`ShowInvertedIndex`, `SaveInvertedIndex`, the stopwatch logging) is reporting only.
- Program.cs is the entry point and is not part of this model.
- `Metrics.Precision`, `Metrics.ReCall`, `Metrics.FMeasure`: C# `decimal` has 28-29 significant digits and rounds; the model uses exact `real` arithmetic.
- `IndexBuilder.AddOrUpdate`: frequencies and document ids are unbounded integers, so an `int` overflow of a frequency is not modelled.
- `QuerySyntax.IsLetter`: only ASCII letters count as letters. `char.IsLetter` also accepts other Unicode letters.
- `Bert.LowerChar`: only ASCII letters are lowered. The culture-sensitive `string.ToLower` maps other letters too.
- `DocumentParsing.DocumentParser.InvertedIndexAddOrUpdate`: the index is a `map` of immutable posting lists. An in-place frequency bump is a replacement of that posting in the list, so aliasing of a `PostingListModel` between two keys is not modelled.
- `DocumentParsing.DocumentParser.CreateInvertedIndex`: when `SingleOrDefault` throws in the middle of the build, the model reports failure. It does not promise which partial index is left behind.
- `BooleanQueryParsing.BooleanQueryParser.ParseExpression`: the '#' branch and its operand loop are the separate methods `ParseLogical` and `ParseOperands`, so that each carries its own contract. The statements and their order are those of `ParseExpression`.
- `Bert.BertEmbeddings.PreProcessText`: a thrown `KeyNotFoundException` is returned as `None`. The tensor is a one-dimensional `array<int>` instead of a `[1, 256]` tensor of `long`.
- `Bert.BertEmbeddings.GenerateAttentionMask` and `Bert.BertEmbeddings.GenerateTokenTypeIds`: both produce a one-dimensional `array<int>` instead of a `[1, n]` tensor of `long`.
- The metric members of BertEmbeddings.cs (lines 208-231) are the same text as those of DocumentParser.cs, so the `Metrics` module stands for both.
