# Loan document processing: metrics, learning loop, extraction and LLM factory

This project is a Dafny model of the backend core of a loan-document pipeline. In that pipeline,
a language model classifies uploaded PDFs and extracts their fields. A reviewer corrects the
output. The corrections are fed back into later extraction prompts, and a dashboard computes
quality and cost metrics.

The model covers four pieces:

- **Dashboard metrics** (`dashboard.py`). This covers text normalisation, exact match,
  token-level F1, per-field extraction metrics, classification labels, the confusion matrix and
  accuracy, token cost, and the operational rates. Scores and amounts are `real`.
  - The per-field metrics are computed by an imperative method that grows a dictionary of
    score lists. That method is proved equal to a specification function, and the properties
    are proved about the function.
- **Learning loop** (`learning.py`). `CorrectionStore` is the `learning_examples` collection: an
  append-only `seq<Record>` plus a clock that plays the server timestamp.
  - `LearningLoop.SaveLearningExample` appends one record, or does nothing when the AI value and
    the human value are equal.
  - `LearningLoop.GetLearningContext` queries the newest three records of a document type and
    builds the rule text in a loop.
- **Extraction** (`data_document_extraction.py`). This covers the total schema dispatch, the
  two-pass placeholder substitution, the missing-prompt guard, and the single model call.
  - The model is an abstract `LanguageModel`: a fixed answer per request, plus a log of the
    requests it received.
- **LLM factory** (`llm_factory.py`). A registry from type name to class. Registration is checked
  and overwrites; creation fails on an unknown key. `get_llm_factory` pre-registers `"gemini"`.

Files: `wrappers.dfy` (Option/Result), `ratios.dfy` (facts about fractions), `pystr.dfy`
(the Python `str` builtins used: `isspace`, `lower`, `strip`, `split()`, `replace`),
`scoring.dfy`, `tagging.dfy`, `field_metrics.dfy`, `costs.dfy`, `commons.dfy`, `learning.dfy`,
`extraction.dfy`.

Behaviour of the code that the model keeps as it is:

- A missing prompt raises `ValueError("Unknown Prompt")`. No separate configuration error type
  exists. The model returns `UnknownPrompt`.
- A failing read of the correction store is not turned into an empty context. The in-memory
  store here cannot fail, so no store error is modelled.
- The per-field extraction metrics do normalise (lower-case and strip) before comparing. They
  are scored with the same `_calculate_exact_match` and `_calculate_f1_token` as everywhere else.
- `calculate_tagging_metrics` on an empty list fails. The data frame then has no
  `predicted_type` column, so the lookup raises `KeyError`. The model returns
  `Failure(MissingColumns)`.

## Model

| member | source | states |
|---|---|---|
| `PyStr.Lower` | src/backend/dashboard/dashboard.py:41 | `str.lower()`: same length, each ASCII capital replaced by its small letter, no ASCII capital left |
| `PyStr.Strip` | src/backend/dashboard/dashboard.py:41 | `str.strip()`: the text between an all-white-space prefix and an all-white-space suffix of the input, with neither end white space (Python's `isspace` set) |
| `PyStr.StripUnique` | src/backend/dashboard/dashboard.py:41 | any slice between white-space margins whose ends are not white space is the strip, so the strip is determined |
| `PyStr.StripOfStripped` | src/backend/dashboard/dashboard.py:41 | a text with no white space at either end is its own strip |
| `PyStr.Split` | src/backend/dashboard/dashboard.py:53-54 | `str.split()`: every word is non-empty and space-free; there are no words exactly when the text is all white space |
| `PyStr.SplitSkipsSpace` | src/backend/dashboard/dashboard.py:53-54 | white space before the first word yields no word |
| `PyStr.SplitTakesWord` | src/backend/dashboard/dashboard.py:53-54 | a space-free word followed by white space or the end is taken whole as the first word |
| `PyStr.StripLower` | src/backend/dashboard/dashboard.py:41 | lower-casing and stripping commute |
| `PyStr.Replace` | src/backend/extraction/data_document_extraction.py:63-64 | `str.replace`: replacing a pattern by itself changes nothing |
| `PyStr.ReplaceHead` | src/backend/extraction/data_document_extraction.py:63-64 | `str.replace` scans left to right: a pattern at the front is replaced and the scan resumes after it |
| `PyStr.ReplaceSkips` | src/backend/extraction/data_document_extraction.py:63-64 | text that cannot start the pattern is copied unchanged and the scan continues after it |
| `PyStr.ReplaceAbsent` | src/backend/extraction/data_document_extraction.py:63-64 | a text without the pattern is returned unchanged |
| `Scoring.Normalize` | src/backend/dashboard/dashboard.py:38-41 | `None` normalises to `""`; otherwise the lower-cased text between white-space margins of the input, with no white space at either end and no ASCII capital |
| `Scoring.NormalizeIs` | src/backend/dashboard/dashboard.py:38-41 | a text that lower-cases to `n` followed by white space only, where `n` has no white space at either end, normalises to `n` |
| `Scoring.ExactMatchIgnoresCase` | src/backend/dashboard/dashboard.py:38-45 | `"ACME Corp "` exactly matches `"acme corp"` |
| `Scoring.ExactMatchNeedsWholeText` | src/backend/dashboard/dashboard.py:38-45 | `"Acme"` does not exactly match `"Acme Corporation"` |
| `Scoring.Tokens` | src/backend/dashboard/dashboard.py:53-54 | `None` has no tokens; there are none exactly when the normalised text is empty; each token is non-empty and space-free |
| `Scoring.NormalizeIdempotent` | src/backend/dashboard/dashboard.py:38-45 | normalising twice is normalising once, so a normalised text exactly matches its source |
| `Scoring.ExactMatch` | src/backend/dashboard/dashboard.py:44-45 | the score is 0.0 or 1.0, and 1.0 exactly when the normalised texts are equal |
| `Scoring.ExactMatchSymmetric` | src/backend/dashboard/dashboard.py:44-45 | exact match does not depend on argument order |
| `Scoring.F1Token` | src/backend/dashboard/dashboard.py:48-72 | token F1 lies in [0, 1] |
| `Scoring.TokenF1` | src/backend/dashboard/dashboard.py:56-72 | F1 over token lists lies in [0, 1] |
| `Scoring.F1FromCounts` | src/backend/dashboard/dashboard.py:68-70 | the harmonic mean of precision and recall equals `2·common / (|pred| + |truth|)` and lies in (0, 1] |
| `Scoring.CommonCount` | src/backend/dashboard/dashboard.py:62-63 | the Counter-intersection size is at most the length of each token list |
| `Scoring.CommonIsAll` | src/backend/dashboard/dashboard.py:62-63 | the intersection covers both lists exactly when they are equal as multisets |
| `Scoring.TokenF1Closed` | src/backend/dashboard/dashboard.py:59-72 | with both lists non-empty, F1 is `2·common / (|pred| + |truth|)`, including when nothing is shared |
| `Scoring.TokenF1Symmetric` | src/backend/dashboard/dashboard.py:56-72 | token F1 is symmetric in its two token lists |
| `Scoring.TokenF1PerfectIff` | src/backend/dashboard/dashboard.py:56-72 | F1 is 1.0 exactly when the token lists are equal as multisets, which includes both being empty |
| `Scoring.TokenF1ZeroIff` | src/backend/dashboard/dashboard.py:56-66 | F1 is 0.0 exactly when some side has tokens and none is shared, which includes exactly one side being empty |
| `Scoring.F1Symmetric` | src/backend/dashboard/dashboard.py:48-72 | `_calculate_f1_token(a, b) == _calculate_f1_token(b, a)` |
| `Scoring.F1PerfectIff` | src/backend/dashboard/dashboard.py:48-72 | `_calculate_f1_token` is 1.0 exactly when the normalised token multisets agree |
| `Scoring.ExactImpliesPerfectF1` | src/backend/dashboard/dashboard.py:44-72 | an exact match always has token F1 1.0 |
| `Tagging.Labels` | src/backend/dashboard/dashboard.py:18 | the labels are strictly sorted, so free of duplicates, and are exactly the union of predicted and actual types |
| `Tagging.LabelsCanonical` | src/backend/dashboard/dashboard.py:18 | any strictly sorted listing of that union is the label list |
| `Tagging.ConfusionMatrix` | src/backend/dashboard/dashboard.py:27 | the matrix is labels × labels; cell (i, j) counts records with actual type `labels[i]` and predicted type `labels[j]` |
| `Tagging.CalculateTaggingMetrics` | src/backend/dashboard/dashboard.py:10-35 | fails exactly on an empty list; otherwise sorted labels of the types seen, the confusion matrix over them (cell (i, j) counts records with actual type i and predicted type j), and accuracy = correct records / n, in [0, 1] |
| `Tagging.ConfusionMatrixTotal` | src/backend/dashboard/dashboard.py:27 | the cells of the matrix sum to the number of records |
| `Tagging.AccuracyIsDiagonal` | src/backend/dashboard/dashboard.py:19-27 | accuracy is the diagonal sum of the matrix divided by the record count |
| `Tagging.PerfectAccuracyIff` | src/backend/dashboard/dashboard.py:19 | accuracy is 1.0 exactly when every prediction equals its actual type |
| `FieldMetrics.Get` | src/backend/dashboard/dashboard.py:95 | `pred_json.get(field, None)`: `None` exactly when the key is absent, else a value stored under it |
| `FieldMetrics.ExtractionMetrics` | src/backend/dashboard/dashboard.py:75-117 | one result per field in first-seen order of the corrected data |
| `FieldMetrics.CalculateExtractionMetrics` | src/backend/dashboard/dashboard.py:75-117 | the imperative two-loop computation returns exactly `ExtractionMetrics` of its input |
| `FieldMetrics.AccumulateDocument` | src/backend/dashboard/dashboard.py:90-103 | after one document, the dictionary and its key order hold exactly the scores, under the two scorers passed in, of the documents seen so far |
| `FieldMetrics.BuildResults` | src/backend/dashboard/dashboard.py:105-117 | the second loop builds, in dictionary order, each field's mean exact-match rate, mean F1 and sample count |
| `FieldMetrics.AccumulatedResults` | src/backend/dashboard/dashboard.py:88-117 | once every document is accumulated, each field's score lists are non-empty and the second loop's results are exactly `ExtractionMetrics` |
| `FieldMetrics.ResultFieldsAreCorrectedFields` | src/backend/dashboard/dashboard.py:90-98 | a field has a result exactly when some document's corrected data has it; predicted-only fields are ignored |
| `FieldMetrics.ResultFieldsDistinct` | src/backend/dashboard/dashboard.py:97-107 | no field name has two results |
| `FieldMetrics.ResultsInFirstSeenOrder` | src/backend/dashboard/dashboard.py:90-107 | the fields of the first i documents lead the results, in their own order |
| `FieldMetrics.RatesBounded` | src/backend/dashboard/dashboard.py:105-115 | both rates are in [0, 1] and every result has at least one sample |
| `FieldMetrics.MeanBounded` | src/backend/dashboard/dashboard.py:111-112 | the mean of scores in [0, 1] lies in [0, 1] |
| `FieldMetrics.SamplesCountDocuments` | src/backend/dashboard/dashboard.py:94-113 | `samples` is the number of documents whose corrected data has the field |
| `FieldMetrics.SingleFieldDocument` | src/backend/dashboard/dashboard.py:90-115 | one document with one field gives one one-sample metric, scored against `None` when the prediction lacks the field |
| `Costs.CalculateCost` | src/backend/dashboard/dashboard.py:120-142 | missing usage costs 0.0; every cost is non-negative |
| `Costs.CostClosedForm` | src/backend/dashboard/dashboard.py:126-140 | cost = (3·prompt + 25·(candidates + thoughts)) / 10^7 dollars |
| `Costs.CostMonotone` | src/backend/dashboard/dashboard.py:132-140 | more tokens of any kind never cost less |
| `Costs.MissingThoughtsCountAsZero` | src/backend/dashboard/dashboard.py:134 | a missing thoughts count costs the same as zero |
| `Costs.CostAdditive` | src/backend/dashboard/dashboard.py:137-140 | the cost is linear in the usage |
| `Costs.CostOfOneMillionEach` | src/backend/dashboard/dashboard.py:126-140 | a million input and a million output tokens cost 2.80 dollars |
| `Costs.AutoApprovedCount` | src/backend/dashboard/dashboard.py:163 | the auto-approved count is at most the sample count |
| `Costs.AutoApprovedCountIsIndices` | src/backend/dashboard/dashboard.py:163 | the count is the number of positions whose status is `"auto_approved"` |
| `Costs.AutoApproveRateIsShare` | src/backend/dashboard/dashboard.py:162-164 | the auto-approve rate is the number of `"auto_approved"` positions over n |
| `Costs.CalculateOpsMetrics` | src/backend/dashboard/dashboard.py:145-176 | `None` exactly for no samples; otherwise `total_docs` = n, total cost = the sum of the sample costs, cost per doc × n = total cost, auto-approve rate = auto-approved count / n (in [0, 1]), the two rates sum to 1, and the mean cost is not negative when no cost is |
| `Costs.RatesAtExtremes` | src/backend/dashboard/dashboard.py:163-166 | all auto-approved gives rates 1 and 0; none gives 0 and 1 |
| `Costs.TotalCost` | src/backend/dashboard/dashboard.py:160 | with no negative cost the total is not negative |
| `Costs.TotalCostSplit` | src/backend/dashboard/dashboard.py:160 | the total of a concatenation is the sum of the totals |
| `Learning.CorrectionStore.Add` | src/backend/learning_loop/learning.py:14-22 | appends one record stamped with the current clock; the clock advances; timestamps stay strictly increasing |
| `Learning.LearningLoop.SaveLearningExample` | src/backend/learning_loop/learning.py:8-22 | equal values leave the store unchanged; otherwise exactly one record `(doc_type, field, bad, good, now)` is appended |
| `Learning.LearningLoop.GetLearningContext` | src/backend/learning_loop/learning.py:24-38 | the loop returns the rule lines of the queried records, concatenated in query order |
| `Learning.Filter` | src/backend/learning_loop/learning.py:27 | the records kept are exactly those of the asked document type |
| `Learning.Query` | src/backend/learning_loop/learning.py:25-31 | at most `limit` records, each stored in the log and of the asked type |
| `Learning.QueryIsNewest` | src/backend/learning_loop/learning.py:25-31 | query results are of the asked type, strictly newest-first, min(limit, matches) in number, and every record left out is older than all returned |
| `Learning.QueryTakesAllWhenFew` | src/backend/learning_loop/learning.py:29 | with at most `limit` matches, all of them are returned |
| `Learning.OtherTypesIgnored` | src/backend/learning_loop/learning.py:27 | a record of another type changes neither the query nor the context |
| `Learning.ContextOnlyOfType` | src/backend/learning_loop/learning.py:27 | the context depends only on the records of the asked type |
| `Learning.RuleLine` | src/backend/learning_loop/learning.py:36 | a rule line starts with `- FORMATTING RULE for '` and ends with a line break |
| `Learning.LearningContext` | src/backend/learning_loop/learning.py:24-38 | the context is `""` exactly when no record of the type is stored |
| `Learning.ReadAfterWrite` | src/backend/learning_loop/learning.py:14-36 | right after a record is appended, the context of its type starts with its rule line, followed by the two newest earlier rules; in an increasing log that record is newer than every earlier one of its type |
| `Commons.LanguageModel.Generate` | src/backend/commons/llm_factory.py:18-34 | one request is logged and answered |
| `Commons.LlmFactory.constructor` | src/backend/commons/llm_factory.py:106-107 | a new factory has an empty registry |
| `Commons.LlmFactory.RegisterLlm` | src/backend/commons/llm_factory.py:109-115 | a non-`LLM` class gives `TypeError` and no change; otherwise only `llm_type` is (re)bound, and `create_llm` on it now yields that class |
| `Commons.LlmFactory.CreateLlm` | src/backend/commons/llm_factory.py:117-132 | `ValueError` exactly for an unregistered type; otherwise an instance of exactly the registered class with the given config |
| `Commons.GetLlmFactory` | src/backend/commons/llm_factory.py:135-141 | the registry is exactly `{"gemini" ↦ GeminiLLM}` |
| `Extraction.GetSchema` | src/backend/extraction/data_document_extraction.py:80-120 | every schema text opens with `{` and a line break, closes with `}`, and holds no other `{` |
| `Extraction.SchemaKeys` | src/backend/extraction/data_document_extraction.py:80-120 | the four named types list their fixed keys (6, 5, 5, 5); every other type gets the generic keys |
| `Extraction.GenericSchemaForOtherTypes` | src/backend/extraction/data_document_extraction.py:115-120 | every type outside the four, `"unknown"` included, maps to the same generic schema |
| `Extraction.RenderSchemaShape` | src/backend/extraction/data_document_extraction.py:83-120 | each schema text opens with `{` and a line break and ends with `}` |
| `Extraction.RenderSchemaMentionsKeys` | src/backend/extraction/data_document_extraction.py:83-114 | each key of a schema appears in its text as `"key":` |
| `Extraction.Compose` | src/backend/extraction/data_document_extraction.py:63-64 | a template with neither placeholder passes through unchanged |
| `Extraction.ComposeFills` | src/backend/extraction/data_document_extraction.py:63-64 | the schema lands in place of `{SPECIFIC_SCHEMA}` and the notes in place of `{LEARNING_NOTES}` |
| `Extraction.ComposeSchemaFills` | src/backend/extraction/data_document_extraction.py:60-64 | with `_get_schema`'s text for any document type, a template with one placeholder of each kind gets the schema and the notes in their places |
| `Extraction.NotesInsertedVerbatim` | src/backend/extraction/data_document_extraction.py:63-64 | the notes are substituted last and are never scanned again |
| `Extraction.SchemaScannedForNotes` | src/backend/extraction/data_document_extraction.py:63-64 | the schema is substituted first, so the notes pass scans it too |
| `Extraction.ExtractionRequestFills` | src/backend/extraction/data_document_extraction.py:60-75 | for a template with one placeholder of each kind, schema first and no other `{`, the request's prompt is the template with the type's schema and the notes filled in |
| `Extraction.ExtractionRequest` | src/backend/extraction/data_document_extraction.py:62-75 | the request carries the prompt's model, the cached document, JSON output at temperature 0.1 and the output schema; a template without placeholders is sent as it is |
| `Extraction.Outcome` | src/backend/extraction/data_document_extraction.py:66-78 | a failed call or unvalidated reply is an error; otherwise the fields plus the usage exactly as returned |
| `Extraction.DataDocumentExtraction.ExtractDataDocument` | src/backend/extraction/data_document_extraction.py:51-78 | no prompt: `UnknownPrompt` and no model call; otherwise exactly one call with the prompt filled by the schema and context of the same type, at temperature 0.1 with JSON output |

## Left out

- Latency percentiles (`np.percentile` at p50 and p95): floating-point interpolation inside a library.
- `Tagging.CalculateTaggingMetrics`: does not compute the weighted precision and recall of `precision_recall_fscore_support`, which are library numerics.
- `Costs.CalculateOpsMetrics`: returns no p50/p95 latency, for the reason above. Costs are added as reals, not IEEE doubles.
- `Extraction.ComposeFills`: proved for templates with one placeholder of each kind, schema first, and no `{` elsewhere. The real template is a YAML prompt file that is not part of this model, so its shape is not checked.
- `PyStr.Lower`: lower-cases ASCII letters only. Python's full Unicode case mapping is not modelled.
- IEEE rounding everywhere: scores, costs and rates are exact reals.
- `Learning.Query`: computes the newest-first order by reversing the type's records in log order. That equals ordering by timestamp because the store's clock strictly increases. Firestore's server timestamps, query streaming and concurrent writers are not modelled.
- Store failures: the in-memory store cannot fail, so a failed read or write is not modelled.
- `GeminiLLM` and `load_document`: calls into the Gemini SDK and HTTP. The model call is the abstract `LanguageModel.Generate`.
- The `print` of the learning context in `extract_data_document`: console output.
- Pydantic: `model_json_schema` is an opaque text, and `model_validate_json` is the function `validate` whose `None` is a validation error.
- Prompt YAML loading: `Prompt.create()` is a record with `instruction` and `model`.
- `create_llm` instantiates the class with `config`. The model records the class and config in an `LlmInstance` rather than running a constructor.
- The document classifier, the facade with its lazy global singleton, storage upload and the Streamlit pages (including confidence-threshold gating) are not part of this model.
