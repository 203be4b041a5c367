# Retrieval-to-prompt core of the onboarding RAG backend, in Dafny

This project models the logic of the Flask backend in `src/backend/app.py`.
The backend answers a question in four steps:

1. It searches an Elasticsearch index.
2. It flattens the hits into a grounding context.
3. It wraps that context in a fixed instruction template.
4. It sends the prompt and the question to a chat-completion model.

The model covers:

- **Hits** (`hits.dfy`): the hit data model. A hit has an `_index`, a `_source` payload and optional named `inner_hits` groups of fragments. Also here: the index field map `index_source_fields` and the constants of the retrieval request.
- **ContextExtractor** (`context_extractor.dfy`): `create_openai_prompt`. `Contribution` gives what one hit adds. A hit with inner hits under `"{_index}.{field}"` adds their `text` values joined by `"\n --- \n"`. Otherwise it adds `_source[field]` plus `"\n"`. `Context` is the in-order concatenation of these contributions; the first hit that raises aborts it. `CreatePrompt` is the source's loop: a method whose `context += …` loop keeps the invariant that the context so far is `Context` of the hits processed so far.
- **PromptBuilder** (`prompt_builder.dfy`): the triple-quoted template, character for character, split into named instruction lines.
- **OtelHeaders** (`otel_headers.dfy`): parsing `OTEL_EXPORTER_OTLP_HEADERS` into a dictionary. Only comma-separated items containing `=` count. An item with two or more `=` makes `dict()` raise. Later keys overwrite earlier ones.
- **QueryHandler** (`query_handler.dfy`): the `/query` handler as a function of the decoded JSON body. The search backend (`get_elasticsearch_results`) and the completion backend (`generate_openai_completion`) are function parameters that either answer or fail. The result holds the reply and the list of backend calls made, so "no backend call" and "completion never called" can be stated directly.
- **Text** (`text.dfy`): Python's `str.join` and `str.split` for a one-character separator, with their inverse laws. Also Python's substring test `needle in hay` (`Occurs`), proved equal to "the needle stands at some offset" (`FoundAt`); the gate's `in` on a string and `PromptCarriesRules` use it.
- **Wrappers** (`wrappers.dfy`): `Option` and `Result`. `Err` stands for a raised exception.

The model follows the code as written, including these behaviours a reader may not expect:

- **No newline after inner-hit text.** Hits are not always separated by a newline. An inner-hit contribution ends without one, so two such hits run together (`AdjacentInnerHitsExample`: `"A"` and `"B"` give `"AB"`).
- **Empty sentence accepted.** The gate checks only that a `"sentence"` key is present, so an empty sentence is searched for (`EmptySentenceAccepted`).
- **A hit with no text fails the request, but an empty group is skipped.** A hit whose configured `_source` field or a fragment's `text` is missing raises, and the request ends in the opaque 500 (`FallbackPath`, `FragmentTexts`, `ExtractionFailure`). A hit whose inner-hit group is present but empty adds nothing, silently (`EmptyInnerHitsAddNothing`).
- **Non-object bodies.** The gate uses Python's `in`, so a JSON list holding `"sentence"` or a string containing it passes. `data["sentence"]` then raises `TypeError` outside the `try`. For a truthy boolean or number, `in` itself raises `TypeError`, also outside the `try`. The framework answers that itself, shown as the `Uncaught` reply (`OnlyObjectsReachBackends`).

## Model

| member | source | states |
|---|---|---|
| `Text.JoinSnoc` | src/backend/app.py:109-111 | joining one more part adds exactly one separator, before that part |
| `Text.JoinEnds` | src/backend/app.py:109-111 | a join starts with the first part and ends with the last: no leading or trailing separator |
| `Text.Join` | src/backend/app.py:109-111 | `sep.join(parts)`; its contract gives the length (the parts' total plus one separator per gap), and `JoinSnoc`, `JoinEnds` and `SplitJoin` give the rest of its meaning |
| `Text.Split` | src/backend/app.py:38 | `split` always yields at least one piece, as Python's does, and no piece contains the separator; `JoinSplit` and `SplitCount` pin it down |
| `Text.SplitCount` | src/backend/app.py:38 | splitting yields one more piece than there are separators |
| `Text.SplitJoin` | src/backend/app.py:38 | splitting a join of separator-free parts gives the parts back |
| `Text.JoinSplit` | src/backend/app.py:38 | joining the pieces of a split with the separator restores the string |
| `Text.OccursIff` | src/backend/app.py:151 | `Occurs`, Python's `needle in hay` on two strings, holds exactly when the needle stands contiguously at some offset of the haystack; the empty needle occurs everywhere |
| `ContextExtractor.TextField` | src/backend/app.py:107 | the configured field is the first entry for the index; fails iff the index is unmapped or its list is empty, and an unmapped index gives `UnknownIndex` |
| `ContextExtractor.InnerHitKey` | src/backend/app.py:107 | the key is the index name, a `.`, then the field name; `DefaultKeyMatchesRequest` ties it to the requested inner-hits name |
| `ContextExtractor.FragmentTexts` | src/backend/app.py:110 | succeeds iff every fragment has `text`, and then yields exactly those texts in order |
| `ContextExtractor.Contribution` | src/backend/app.py:107-115 | one hit's addition to the context; an unmapped index fails with `UnknownIndex`, a `MissingSourceField` error names a field the hit's `_source` lacks, and a missing fragment text only arises on a hit with inner hits; `InnerHitPath` and `FallbackPath` give the two paths in full |
| `ContextExtractor.Context` | src/backend/app.py:105-116 | the in-order concatenation of the contributions; a failure is the error of some hit, and success means every hit contributed; `ContextAppend`, `ContextSucceedsIff` and `ContextFirstError` complete its meaning |
| `ContextExtractor.PromptFor` | src/backend/app.py:101-130 | what `create_openai_prompt` returns: it succeeds iff extraction does, the context can then be read back out of the prompt exactly, and otherwise it carries extraction's error |
| `ContextExtractor.CreatePrompt` | src/backend/app.py:101-130 | the loop's result is the prompt for the `Context` of all hits, or the error of the first failing hit |
| `ContextExtractor.ContextAppend` | src/backend/app.py:105-116 | the context of two hit lists back to back is their contexts back to back, with nothing between them; the first error wins |
| `ContextExtractor.FailingHitAborts` | src/backend/app.py:106-115 | if the hits before position i extract cleanly and hit i fails, the whole extraction fails with hit i's error |
| `ContextExtractor.ContextSucceedsIff` | src/backend/app.py:105-116 | extraction succeeds exactly when every hit contributes |
| `ContextExtractor.ContextFirstError` | src/backend/app.py:105-116 | a failed extraction carries the error of the first failing hit, and every earlier hit succeeded |
| `ContextExtractor.UnknownIndexFails` | src/backend/app.py:107 | a hit whose index is unmapped fails with `UnknownIndex`, whichever path it would take, and so does the whole extraction |
| `ContextExtractor.InnerHitPath` | src/backend/app.py:108-111 | with the inner-hit group present, the hit adds its fragments' texts joined by `"\n --- \n"`, or fails if one has no `text` |
| `ContextExtractor.FallbackPath` | src/backend/app.py:112-115 | without that group (no `inner_hits`, or not under the key), the hit adds `_source[field] + "\n"`, or fails if the field is missing |
| `ContextExtractor.DefaultKeyMatchesRequest` | src/backend/app.py:107 | with the shipped field map the key looked up is `"search-ikea.es.ai_embeddings"`, the inner-hits name the request sets at line 86 |
| `ContextExtractor.TwoFragmentsExample` | src/backend/app.py:108-111 | one hit with fragments "A" and "B" gives the context `"A\n --- \nB"` |
| `ContextExtractor.FallbackExample` | src/backend/app.py:112-115 | one hit with no inner hits and field value "C" gives the context `"C\n"` |
| `ContextExtractor.EmptyInnerHitsAddNothing` | src/backend/app.py:108-111 | a hit whose inner-hit group is present but empty contributes the empty string without raising, so the context is that of the other hits alone |
| `ContextExtractor.EmptyInnerHitsExample` | src/backend/app.py:108-111 | one hit with an empty inner-hit group gives the empty context |
| `ContextExtractor.AdjacentInnerHitsExample` | src/backend/app.py:105-116 | two inner-hit hits "A" and "B" give `"AB"`: no separator between hits |
| `PromptBuilder.Prompt` | src/backend/app.py:117-129 | the template with the context interpolated; the context can be read back out of it exactly |
| `PromptBuilder.ContextInPrompt` | src/backend/app.py:117-129 | a context read back from a prompt is what stands between the fixed preamble and trailer: the prompt is preamble, context, trailer |
| `PromptBuilder.PromptShape` | src/backend/app.py:117-129 | the reader finds a context exactly in the strings the template can produce, and reports none for any other string |
| `PromptBuilder.PromptInjective` | src/backend/app.py:117-129 | two prompts are equal iff their contexts are |
| `PromptBuilder.TemplateFixed` | src/backend/app.py:117-129 | every prompt starts with the same instruction block and ends with the same trailer, whatever the context |
| `PromptBuilder.PromptCarriesRules` | src/backend/app.py:122-123 | every prompt contains the "don't know" rule and the citation rule |
| `OtelHeaders.Binding` | src/backend/app.py:38 | an item that splits into exactly two pieces is `k=v`, with `k` and `v` free of `=` |
| `OtelHeaders.Collect` | src/backend/app.py:37-39 | `dict()` over the filtered items; a failure names a malformed item of the list with its piece count, and a success has keys and values free of `=`; `CollectFailsIff` and `CollectLastWins` complete its meaning |
| `OtelHeaders.ParseHeaders` | src/backend/app.py:36-41 | the parse of the whole setting; a failure names a malformed comma-separated item, and a success has keys and values free of `=`; `ParseHeadersMeaning` and `ParseRender` complete its meaning |
| `OtelHeaders.HasEqualsIff` | src/backend/app.py:38 | the `"=" in item` filter holds iff the item splits on `=` into at least two pieces |
| `OtelHeaders.CollectFailsIff` | src/backend/app.py:37-39 | building the dictionary fails iff some item contains two or more `=` |
| `OtelHeaders.CollectLastWins` | src/backend/app.py:37-39 | a successful parse holds exactly the keys some well-formed item binds, each with the value of the last item that binds it |
| `OtelHeaders.NoBindingsNoHeaders` | src/backend/app.py:38 | items without `=` are skipped: a setting with none yields the empty dictionary |
| `OtelHeaders.ParseHeadersMeaning` | src/backend/app.py:36-41 | an empty setting yields the empty dictionary; otherwise failure iff a malformed comma-separated item, and the keys are those bound by its items |
| `OtelHeaders.Items` | src/backend/app.py:38 | the items written for a list of pairs are `k=v`, one per pair, in order |
| `OtelHeaders.ItemBinding` | src/backend/app.py:38 | an item `k=v` with plain key and value binds exactly `k` to `v` |
| `OtelHeaders.CollectItems` | src/backend/app.py:37-39 | the items written from plain pairs build the pairs' dictionary, later pairs overriding |
| `OtelHeaders.ParseRender` | src/backend/app.py:36-41 | parsing `k1=v1,k2=v2,…` written from plain pairs gives back those pairs' dictionary |
| `QueryHandler.Truthy` | src/backend/app.py:151 | Python's `not data` on a decoded body: falsy exactly for `null`, `false`, `0`, `""`, `[]` and `{}` |
| `QueryHandler.HasKey` | src/backend/app.py:151 | Python's `"sentence" in data`: key membership for an object, equality with some element for a list, a contiguous substring for a string; it raises `TypeError` (`None`) exactly for `null`, booleans and numbers |
| `QueryHandler.Lookup` | src/backend/app.py:155 | Python's `data["sentence"]`: a value exactly for an object holding the key, and then the key is also `in` it; a list or string that passed the `in` test raises `TypeError` (`None`) |
| `QueryHandler.Answer` | src/backend/app.py:158-175 | the search is always called first; the reply is the opaque 500 or a 200; 200 iff search, extraction and completion all succeed; completion of the built prompt with the question is the second call, made iff search and extraction succeeded; a 200 carries that completion |
| `QueryHandler.Query` | src/backend/app.py:145-175 | 400 with the fixed message iff the body is falsy or lacks `"sentence"`, and then no backend call; a backend is called iff the body passes the gate and yields a sentence, and then the exchange is exactly `Answer` on that sentence; the reply is an escaped exception exactly when the body is neither rejected nor accepted; every 500 carries only the fixed message |
| `QueryHandler.ObjectGate` | src/backend/app.py:151-155 | for a JSON object, 400 iff `"sentence"` is missing; otherwise the search runs on its value |
| `QueryHandler.EmptySentenceAccepted` | src/backend/app.py:151 | `{"sentence": ""}` is not rejected and is searched for |
| `QueryHandler.OnlyObjectsReachBackends` | src/backend/app.py:150-155 | only a JSON object reaches a backend; a list or string that "contains" `"sentence"`, and any truthy boolean or number, raises outside the `try` |
| `QueryHandler.SearchFailure` | src/backend/app.py:158-175 | a failed search gives the opaque 500 after one search call and no completion call |
| `QueryHandler.ExtractionFailure` | src/backend/app.py:163-175 | a failed extraction gives the opaque 500 after one search call and no completion call |
| `QueryHandler.CompletionFailure` | src/backend/app.py:167-175 | a failed completion gives the opaque 500 after the search call and one completion call on the built prompt and the question |
| `QueryHandler.SuccessMeaning` | src/backend/app.py:167-172 | a 200 carries the completion of the prompt built from the searched hits; the calls were search, then completion of that prompt with the question |
| `QueryHandler.ErrorDetailHidden` | src/backend/app.py:173-175 | backends that fail on the same inputs and agree where they succeed give identical exchanges: no failure detail reaches the client |
| `QueryHandler.EndToEndExample` | src/backend/app.py:145-175 | two hits with one chunk each and a completion backend returning `answer` give a 200 with `answer` |

## Left out

- Logging setup and every `logger` call (src/backend/app.py:9-18): side effects with no bearing on results.
- Environment loading, the startup `exit(1)` when keys are missing, and `FULL_API_URL` (src/backend/app.py:25-29, 43-46, 65): process configuration. `ParseHeaders` takes the header setting as a parameter.
- The Elasticsearch and OpenAI clients and their calls (`get_elasticsearch_results`, `generate_openai_completion`): these are network libraries. They appear only as the `search` and `complete` parameters, which either return a value or fail with a message. The request body `es_query` is constant configuration; only its index name and inner-hits name are kept as constants. Nothing limits a hit to 2 inner hits or a search to 10 hits: those sizes are the search backend's business.
- Flask routing, decoding of `request.json`, and `jsonify`. The framework's own answers are not modelled: malformed JSON, a wrong content type, and the page it serves for an exception that escapes the handler (`Uncaught`).
- JSON numbers are integers only, so the truth value of a float such as `0.0` is not modelled.
- `_source` values are taken in their rendered text form, which the f-string produces for non-string values. A fragment `text` that is not a string would make `join` raise; the model does not capture this.
- A hit without any `_source` is modelled as one with an empty `_source`. On the fallback path both raise in the source and both fail in the model. The inner-hit path never reads `_source`, so there neither raises, in the source or the model.
- Every hit is assumed to carry `_index`; the `KeyError` a hit without one would raise is not modelled.
- Each inner-hit group is flattened from `[key]['hits']['hits']` to its list of fragments; the `KeyError`s a group without that nesting would raise are not modelled.
- The exact Python exception messages (for example `dict()`'s "element #N has length L") are replaced by the `ExtractError` and `HeaderError` cases.
- A completion whose message content is `None` is not modelled; the completion is a string.
- The Express front end and its proxy (demo-onboardng-openai/): I/O plumbing and a logging-level callback.
