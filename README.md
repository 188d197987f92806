# Research-article agent: a verified model

The repository's core is an article agent built on a state graph. It
threads one record, the agent state (`topic`, `searchResults`, `article`,
`critique`), through five stages. **Search** asks a retriever for ten
documents about the topic. A topic shorter than five UTF-16 code units gets the
prefix `topic: ` first. **Curate** asks an editor model for the most relevant URLs and keeps
only the retrieved documents whose source it lists. **Write** drafts the
article. **Critique** asks a critic model for feedback. `[DONE]` means
accepted. **Revise** rewrites the article against the critique. A routing
predicate (`shouldContinue`) and the state channel's reducer and default
complete the core.

The model is pure, as the source is. Each stage is a Dafny function. It
takes the current `AgentState` and the collaborator's answer and returns the
next state. For Search, the collaborator is the retriever, given as a
function of query and count. For Curate, it is the parsed editor reply, or
`None` when the reply is not JSON. For the other stages it is the reply
text. The JSON string held in `searchResults` is modelled as a
`seq<Document>`. Treating `JSON.stringify`/`JSON.parse` as a round trip means
the representation never changes the outcome.

Modules:
- `Results` (results.dfy): `Option` (for `undefined`) and `Result` (for a thrown exception).
- `JsText` (js_text.dfy): JavaScript's `length` in UTF-16 code units, and `String.prototype.includes` proved equal to a reference substring predicate.
- `JsonValues` (json_values.dfy): a parsed JSON value and property reads on it.
- `Research` (research.dfy): the state, the five stages, `shouldContinue`, the reducer and the default state.
- `Pipeline` (pipeline.dfy): an **addition, not a port**. It is a driver that runs search → curate → write → critique, then repeats revise/critique while the route is `"continue"`, with a bound on the number of revisions. In the source's own graph wiring every node name maps to `"__start__"` and there is no conditional edge (src/api/copilotkit/research.ts:214-228), so this loop and its bound do not exist there. Only the intended order (entry point search, then curate, write, critique) can be read from it.

Behaviour of the code a reader may not expect:
- Search never fails on an empty retrieval result. It stores whatever the retriever returned.
- No topic is rejected as invalid. An empty topic is queried as `"topic: "`.
- The length test counts UTF-16 code units, not characters. So three emoji (six code units) are not padded.
- Curate does not cap its result at five documents and does not remove duplicates.
- Curate's membership test is exact only when `urls` is an array. When the editor returns `urls` as a string, `includes` is a substring search, so a source that is a substring of that string is kept.
- When there are no retrieved documents, the filter callback never runs. A reply without a usable `urls` then does not fail.
- Nothing strips the `<FEEDBACK>` notes a revision may contain.
- The source has no revision bound. It appears only in the `Pipeline` addition.

## Model

| member | source | states |
|---|---|---|
| `JsText.Utf16Length` | src/api/copilotkit/research.ts:36 | `topic.length` counts UTF-16 code units: between the number of characters and twice that |
| `JsText.Utf16LengthConcat` | src/api/copilotkit/research.ts:37 | the length of `"topic: " + topic` is the sum of the lengths of the two parts |
| `JsText.Includes` | src/api/copilotkit/research.ts:121 | `String.prototype.includes`, scanning start positions in turn, holds exactly when some window of `hay` equals `needle` (both directions) |
| `JsonValues.Urls` | src/api/copilotkit/research.ts:76 | reading `.urls` from a non-null parsed reply gives the object's own `urls` entry, and undefined for every other value or a missing key (no JSON value has a built-in `urls` property) |
| `Research.SearchQuery` | src/api/copilotkit/research.ts:34-38 | the query is `"topic: " + topic` when the topic is shorter than 5 code units, else the topic; the topic is always a suffix of the query, the query is never shorter, and its length is always at least 5 |
| `Research.Search` | src/api/copilotkit/research.ts:39-45 | only `searchResults` changes, to the retriever's top-10 answer for the normalised query; the topic is not rewritten, and `article` and `critique` are carried over |
| `Research.KeepListed` | src/api/copilotkit/research.ts:78-80 | a document is kept iff `urls.includes` its source; each kept document keeps its input multiplicity (no deduplication); the result is an order-preserving subsequence; when every source is listed the input comes back whole (no cap) |
| `Research.Searchable` | src/api/copilotkit/research.ts:79 | `urls.includes` can be called only when `urls` is an array or a string; undefined, null, booleans, numbers and objects make the call throw |
| `Research.Listed` | src/api/copilotkit/research.ts:79 | `urls.includes(source)`: on an array, some element is exactly the string `source`; on a string, `source` is a substring of it; on any other value nothing is listed |
| `Research.Curate` | src/api/copilotkit/research.ts:76-86 | fails, in source order, when the reply is not JSON, parses to null, `searchResults` is undefined, or documents exist and `urls` has no `includes`; succeeds exactly in every other case, and then replaces only `searchResults`, with the filter of the input by `urls.includes` (an order-preserving subsequence, no longer than the input) |
| `Research.Write` | src/api/copilotkit/research.ts:149-155 | `article` becomes the writer's reply; topic, search results and critique are unchanged |
| `Research.Revise` | src/api/copilotkit/research.ts:175-181 | `article` becomes the editor's reply; the critique it answered and the other fields are unchanged |
| `Research.Truthy` | src/api/copilotkit/research.ts:93 | JavaScript truthiness of an optional string: undefined and the empty string are falsy, every non-empty string is truthy |
| `Research.FeedbackInstructions` | src/api/copilotkit/research.ts:92-99 | the instructions are non-empty exactly when the previous critique is truthy (defined and non-empty), and then they contain that critique |
| `Research.Critique` | src/api/copilotkit/research.ts:116-123 | the critique becomes undefined iff the reply contains `[DONE]`, and otherwise is exactly the reply (empty text included); topic, search results and article are unchanged |
| `Research.ShouldContinue` | src/api/copilotkit/research.ts:195-198 | the route is `"end"` iff the critique is undefined and `"continue"` iff it is defined |
| `Research.Reduce` | src/api/copilotkit/research.ts:186 | the channel reducer returns the newer state |
| `Research.DefaultState` | src/api/copilotkit/research.ts:187-189 | the default state has an empty topic and no search results, article or critique |
| `Research.LastWriterWins` | src/api/copilotkit/research.ts:184-192 | after any series of node updates the channel holds the last update, or its start value if there was none |
| `Research.CritiqueDecidesRoute` | src/api/copilotkit/research.ts:195-197 | after Critique the route is `"end"` exactly when the critic's reply contains `[DONE]`, and `"continue"` exactly when it does not |
| `Research.EmptyCritiqueContinuesUninstructed` | src/api/copilotkit/research.ts:92-97 | an empty critic reply is kept as the critique; the route is then `"continue"`, yet the next critique gets no feedback instructions |
| `Research.CritiqueLatestReplyWins` | src/api/copilotkit/research.ts:118-123 | critiquing twice in a row leaves the state the second critique alone would give |
| `Research.ReviseKeepsRoute` | src/api/copilotkit/research.ts:175-181 | revising never changes the route |
| `Research.ShortTopicQuery` | src/api/copilotkit/research.ts:36-37 | the topic `"AI"` is queried as `"topic: AI"` |
| `Research.LongTopicQuery` | src/api/copilotkit/research.ts:36 | a five-character topic is queried unchanged |
| `Research.AstralTopicQuery` | src/api/copilotkit/research.ts:36 | three characters outside the Basic Multilingual Plane count six code units and are not padded |
| `Pipeline.ReviewLoop` | src/api/copilotkit/research.ts:195-198 | (addition) ends with no critique after the first accepting reply and at most `bound` revisions, or reports the limit with the last rejecting critique, after every critique up to the bound rejected; topic and documents are never changed |
| `Pipeline.Run` | src/api/copilotkit/research.ts:222-228 | (addition) a run aborts exactly when curation fails; otherwise it keeps the caller's topic |
| `Pipeline.ReviewLoopStopsAtFirstAccept` | src/api/copilotkit/research.ts:195-198 | (addition) the loop ends at the first accepting critique, after that many revisions, with the last revision's article |
| `Pipeline.ReviewLoopReachesBound` | src/api/copilotkit/research.ts:195-198 | (addition) a critic that never accepts ends the loop at the bound, with the last revision's article |
| `Pipeline.RunAcceptsFirstDraft` | src/api/copilotkit/research.ts:222-228 | (addition) a first draft accepted at once is the result, after zero revisions |
| `Pipeline.RunTwoRevisions` | src/api/copilotkit/research.ts:222-228 | (addition) two rejections and then an acceptance give exactly two revisions and the second revision's article |
| `Pipeline.RunNeverAccepted` | src/api/copilotkit/research.ts:222-228 | (addition) a critic that never accepts ends the run with the revision limit |
| `Pipeline.RunKeepsCuratedDocuments` | src/api/copilotkit/research.ts:39-80 | (addition) a finished run holds only retrieved documents, for the normalised query, that the editor listed, in retrieval order |

## Left out

- The agent state record (`AgentState`, src/api/copilotkit/research.ts:13-18) is the datatype `Research.AgentState`; it has no contract of its own, so it has no row above.
- A collaborator call that throws or rejects (`getRelevantDocuments` or any `invoke`, src/api/copilotkit/research.ts:39, 51, 100, 129, 161) is not represented, and neither is a `response.content` that is not a string despite the `as string` cast: every stage takes a successful string reply.

- The language-model calls (`ChatOpenAI`, `model()`, every `invoke`) are external services. Their replies are parameters of the stage functions, so the model claims nothing about what they say. For instance, it does not claim that Write gives a non-empty article.
- The retriever (`TavilySearchAPIRetriever`, `getRelevantDocuments`) is external. It is a function parameter from query and count to documents. Document metadata other than `source` is not modelled.
- Prompt wording, the `.replace(/\s+/g, " ")` whitespace collapsing, today's date, and `console.log` are left out. None of them affects the state.
- Research.FeedbackInstructions: the wording around the critique is a constant, and whitespace inside the critique is not collapsed, because the text only goes into a prompt. The source collapses it (src/api/copilotkit/research.ts:98), so "the instructions contain the critique" holds of the model only; the truthiness guard holds of both.
- `JSON.stringify`/`JSON.parse` of `searchResults` are treated as an identity round trip. The editor reply's JSON parsing is represented by its result: a parsed value, or `None` when it throws.
- Curate's JSON numbers are `real`. Floating point does not matter, since numbers never match a source.
- How `StateGraph`, `config`, the node table, `addEdge` and `setEntryPoint` are built is library wiring, and it is left out. The `Pipeline` driver is an addition, not a model of it.
- `researchWithLangGraph` has an empty body. There is nothing to model.
- The async/await sequencing is modelled as plain sequential function calls.
- The React pages (src/app/page.tsx, src/writearticles/page.tsx) only render, with no logic.
