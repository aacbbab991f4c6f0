# Maestro4D context tree, agent and retrieval: a Dafny model

Maestro4D turns a construction project's PDF plan sheets, with the context
pointers users draw on them, into a "context tree" that an AI agent can
query. This project models the core of its back end and proves properties
of that model:

- **The three-pass context-tree pipeline** (`context_tree_processor.py`).
  - Page rows are created for every page of a PDF that carries a pointer.
  - Pass 1 asks the model for each page's discipline, summary and outbound sheet references.
  - The references are inverted into inbound references, keyed by a normalised sheet number.
  - Pass 2 asks for the context of each reference; that context is then propagated to the referenced pages.
  - A sweep resets failed and stuck pages within a retry budget of three and reports the rest as permanently failed.
  - Pass 3 rolls each discipline up once all of its pages finished pass 2.
  - The model is an oracle: it gives the reply to the n-th call, or the message of the exception that call raised.
  - `Lifecycle` states every step as a function from one database state to the next.
  - The class `ContextTreeProcessor.Pipeline` performs the steps in place on its page and discipline tables, its pass-3 queue and its event list. Each of its methods is proved to leave exactly the state its `Lifecycle` function computes.
- **The context-tree router** (`routers/context_tree.py`). The class `JobRegistry.Registry` holds:
  - one active job per project;
  - the server-sent-event subscribers and their bounded queues;
  - the trigger, status, reset and discipline-listing endpoints.
- **Gemini reply handling.**
  - `_retry_with_backoff` (module `Retry`).
  - Code-fence stripping and `_clean_json_response` (module `JsonText`).
  - MIME sniffing, highlight parsing and context-pointer analysis with the truncation retry (module `GeminiService`).
  - The agent's prompt formatting, message building and `query_agent` (module `AgentService`).
- **The agent and query routers.**
  - Session ownership, history, titles and pointer links (`AgentSessions`, with the class `SessionStore`).
  - Query access rules, the query listing and query creation (`Queries`, with the class `QueryStore`).
- **The project file tree** (`FileTree`): `build_file_tree` and the uniqueness of files in the tree it builds.
- **The viewm4d retrieval back end** (`Retrieval`): pointer flattening, the project summary, the Gemini search with its keyword fallback, and the search endpoint.

Shared modules hold the value types: `Wrappers` for Option and Result, `Text` for Python's string built-ins, `JsonValue` for decoded JSON values, `ContextData` for pages, disciplines and page selection, `Inbound` for references, `Selection` for pointer lookups and selections, `SheetRefs` for the sheet-number helpers, and `Sorting` for Python's stable `sorted`.

Where the code and its own comments or design notes disagree, the model follows the code:

- `extract_sheet_number_from_filename` requires two or three digits after the letters. So "AS2.1 …" and "M3.2 …" give no sheet number, although its docstring lists them (`SheetRefs.ExtractSheetNumberNeedsTwoDigits`).
- The pass-1 prompt template names `spans_section`, which is defined nowhere. Every pass-1 call therefore fails before the model is asked (see Findings).
- `run_pass2` counts a page it cannot find as completed.
- `get_pages_for_processing` selects `error` pages whatever their retry count. So a page reported as permanently failed is tried again by the next run.
- The retry loop of `start_processing` reruns passes 1 and 2 and the sweep only. It neither recomputes nor propagates inbound references.
- A discipline whose pages all finish pass 2 is marked ready and queued in the page job's own processor. The router's page job (`_run_page_processing`) never drains that queue, and the queue is dropped with the processor.
- The router's discipline job builds a fresh processor with an empty queue. It finds ready disciplines only through their `ready` status (`process_all_ready`).
- Only `process_project_context_tree` drains the queue, with the same processor, right after the pages (`JobRegistry.Registry.RunPageProcessing`, `JobRegistry.Registry.RunDisciplineProcessing`, `ContextTreeProcessor.Pipeline.ProcessProjectContextTree`).
- `query_agent` can raise, because it formats the pointers before its `try` (see Findings).
- An unknown discipline code from the model becomes "G".

Nothing here runs the program. The I/O of the source becomes parameters:

- the database becomes sequences of rows;
- the model, the clock and the id generators become functions, counters and oracles;
- the parsed JSON of a reply becomes a `Json` value, and the decoder becomes a function parameter.

## Model

| member | source | states |
|---|---|---|
| SheetRefs.DisciplineName | apps/web-internal/backend/app/services/context_tree_processor.py:48-68 | a known code gets its own name, any other code the General name; the result is always one of the table's names |
| SheetRefs.ExtractTitleFromFilename | apps/web-internal/backend/app/services/context_tree_processor.py:70-81 | a name ending in ".pdf" (any case) loses those four characters; any other name is returned unchanged |
| SheetRefs.TitleOfPdfName | apps/web-internal/backend/app/services/context_tree_processor.py:70-81 | a stem followed by any casing of ".pdf" gives back the stem |
| SheetRefs.SheetPrefixIsLongestMatch | apps/web-internal/backend/app/services/context_tree_processor.py:96-97 | the matcher finds the longest prefix of the sheet pattern (1-2 letters, 2-3 digits, optional dot and digits), and finds none exactly when no prefix matches |
| SheetRefs.ExtractSheetNumberFromFilename | apps/web-internal/backend/app/services/context_tree_processor.py:84-100 | a sheet number exists exactly when a prefix matches the pattern case-insensitively; it is that prefix upper-cased, has at least three characters and no lower-case letter |
| SheetRefs.ExtractOneLetterThreeDigits | apps/web-internal/backend/app/services/context_tree_processor.py:84-100 | a name opening with one letter, three digits and no further digit yields those four characters upper-cased |
| SheetRefs.ExtractSheetNumberExample | apps/web-internal/backend/app/services/context_tree_processor.py:88-89 | "a401.pdf" yields "A401" |
| SheetRefs.ExtractSheetNumberNeedsTwoDigits | apps/web-internal/backend/app/services/context_tree_processor.py:90-97 | "AS2.1.pdf" yields no sheet number, although the docstring lists it |
| SheetRefs.Clean | apps/web-internal/backend/app/services/context_tree_processor.py:125-129 | the cleaned text holds no separator and no lower-case letter |
| SheetRefs.FirstSheetPart | apps/web-internal/backend/app/services/context_tree_processor.py:121-126 | a part is chosen only when its cleaned form looks like a sheet (letters, then a digit), and none is chosen exactly when no cleaned part does |
| SheetRefs.NormalizeSheetRef | apps/web-internal/backend/app/services/context_tree_processor.py:107-129 | the result holds no separator and no lower-case letter; an empty reference gives "" |
| SheetRefs.NormalizeCases | apps/web-internal/backend/app/services/context_tree_processor.py:118-129 | without a slash, or when no slash part looks like a sheet, the whole reference is cleaned; otherwise the first sheet-like part is returned |
| SheetRefs.NormalizeIgnoresSeparator | apps/web-internal/backend/app/services/context_tree_processor.py:107-129 | inserting a hyphen, dot or whitespace character anywhere in a slash-free reference does not change its normal form |
| SheetRefs.NormalizeIgnoresCase | apps/web-internal/backend/app/services/context_tree_processor.py:107-129 | upper-casing a slash-free reference first does not change its normal form |
| SheetRefs.NormalizeDetailCallout | apps/web-internal/backend/app/services/context_tree_processor.py:118-126 | "detail/sheet", with a detail that does not look like a sheet, normalises to the cleaned sheet |
| SheetRefs.NormalizeCalloutFirstPart | apps/web-internal/backend/app/services/context_tree_processor.py:118-126 | a first part that looks like a sheet wins over later parts |
| SheetRefs.SplitClean | apps/web-internal/backend/app/services/context_tree_processor.py:121-125 | splitting the cleaned text at slashes gives the cleaned parts of the original |
| SheetRefs.CleanIdempotent | apps/web-internal/backend/app/services/context_tree_processor.py:125-129 | cleaning twice is cleaning once |
| SheetRefs.NormalizeIdempotent | apps/web-internal/backend/app/services/context_tree_processor.py:107-129 | a normalised reference is its own normal form, so pages keyed by normal form are found by normalised references |
| SheetRefs.NormalizeKeepsPlain | apps/web-internal/backend/app/services/context_tree_processor.py:107-129 | a reference of capitals and digits only is already normal |
| SheetRefs.NormalizeSeparatorExamples | apps/web-internal/backend/app/services/context_tree_processor.py:111-112 | "A-101" and "A.101" both normalise to "A101", as the docstring says |
| SheetRefs.NormalizeCalloutExample | apps/web-internal/backend/app/services/context_tree_processor.py:115 | "3/A-501" normalises to "A501", as the docstring says |
| Retry.FirstStop | apps/web-internal/backend/app/services/context_tree_processor.py:283-314 | the attempt at which the loop stops: every earlier attempt raised a retryable error, and this one did not, unless all three were used |
| Retry.RetryWithBackoff | apps/web-internal/backend/app/services/context_tree_processor.py:283-314 | the loop returns the outcome the retry rule gives and sleeps 1, 2, 4 … seconds after each retryable failure |
| Retry.RetrySucceedsIff | apps/web-internal/backend/app/services/gemini_service.py:59-102 | the call succeeds exactly when some attempt among the three returns and every attempt before it raised a retryable error; the value is that attempt's |
| Retry.NonRetryableFailsAtOnce | apps/web-internal/backend/app/services/gemini_agent_service.py:41-84 | a first error that is not retryable is raised at once, without sleeping |
| Retry.ExhaustedRetries | apps/web-internal/backend/app/services/context_tree_processor.py:283-314 | three retryable failures raise the third error, after sleeping 1, 2 and 4 seconds (a sleep follows every retryable failure, the last included) |
| Retry.PoliciesAgreeWithoutInvalidArgument | apps/web-internal/backend/app/services/gemini_service.py:59-102 | the pipeline's policy (no retry on invalid argument) and the services' policy agree on every call that never raises invalid argument |
| JsonText.StripFenceOfFenced | apps/web-internal/backend/app/services/gemini_service.py:421-429 | removing the fence of a fenced body gives back the body, whatever the language tag |
| JsonText.FenceFreeReplyOfFenced | apps/web-internal/backend/app/services/gemini_agent_service.py:300-308 | a fenced reply, with whitespace around it, is handed to the parser as its body |
| JsonText.UnwrapBackticks | apps/web-internal/backend/app/services/context_tree_processor.py:385-387 | text wrapped in single backticks (not a fence) loses the first and last character; other text is unchanged |
| JsonText.CutToJson | apps/web-internal/backend/app/services/context_tree_processor.py:389-409 | text opening with `{` or `[` is kept; otherwise the result is the text or a span that opens and closes with matching brackets |
| JsonText.CleanJsonResponse | apps/web-internal/backend/app/services/context_tree_processor.py:359-411 | the cleaned reply carries no surrounding whitespace |
| JsonText.CleanRawJson | apps/web-internal/backend/app/services/context_tree_processor.py:359-411 | a stripped raw JSON object or array passes through unchanged |
| JsonText.CleanFencedJson | apps/web-internal/backend/app/services/context_tree_processor.py:364-382 | a fenced JSON value comes out as the value |
| JsonText.CleanJsonInProse | apps/web-internal/backend/app/services/context_tree_processor.py:389-409 | prose before and after a JSON object is cut away |
| JsonText.CutAtBrace | apps/web-internal/backend/app/services/context_tree_processor.py:389-409 | when a `{` comes before any `[`, the cut runs from the first `{` to the last `}` |
| JsonText.SearchReplyText | apps/viewm4d/viewm4d/backend/main.py:157-163 | the search reply text handed to the parser carries no surrounding whitespace |
| JsonText.SearchReplyOfFenced | apps/viewm4d/viewm4d/backend/main.py:157-163 | a "json"-tagged fenced reply yields its JSON text |
| GeminiService.MimeType | apps/web-internal/backend/app/services/gemini_service.py:105-119 | JPEG exactly for the JPEG signature, PDF exactly for the PDF signature, PNG for everything else |
| GeminiService.Shorten | apps/web-internal/backend/app/services/gemini_service.py:274-276 | a title over 50 characters keeps 47 of them and gains "..."; shorter titles are kept; the result is at most 50 long |
| GeminiService.ParseHighlightResponse | apps/web-internal/backend/app/services/gemini_service.py:247-277 | the loop over the reply's lines computes the highlight the line-by-line definition gives |
| GeminiService.ScanAll | apps/web-internal/backend/app/services/gemini_service.py:256-264 | the loop leaves the title and description that scanning the lines in order gives |
| GeminiService.FinishHighlight | apps/web-internal/backend/app/services/gemini_service.py:266-277 | the fallback for unlabelled replies and the title limit, as defined |
| GeminiService.HighlightOf | apps/web-internal/backend/app/services/gemini_service.py:247-277 | the title of every parsed highlight is at most 50 characters long |
| GeminiService.HighlightOfLabelled | apps/web-internal/backend/app/services/gemini_service.py:247-277 | a reply "TITLE: x" then "DESCRIPTION: y" gives title x and description y |
| GeminiService.LastTitleWins | apps/web-internal/backend/app/services/gemini_service.py:256-264 | the last title line decides the title |
| GeminiService.LastDescriptionWins | apps/web-internal/backend/app/services/gemini_service.py:256-264 | the last description line decides the description |
| GeminiService.HighlightOfBlank | apps/web-internal/backend/app/services/gemini_service.py:247-277 | a blank reply gives the default title "Highlight" and an empty description |
| GeminiService.HighlightOfUnlabelled | apps/web-internal/backend/app/services/gemini_service.py:266-272 | an unlabelled reply of two or more lines: the first line is the title, the rest joined by spaces the description |
| GeminiService.HighlightOfOneLine | apps/web-internal/backend/app/services/gemini_service.py:266-272 | a single unlabelled line becomes the description under the default title |
| GeminiService.NormaliseDefaults | apps/web-internal/backend/app/services/gemini_service.py:434-441 | the analysis has exactly the six keys, each with the reply's value when present and its default otherwise |
| GeminiService.NormaliseAsObject | apps/web-internal/backend/app/services/gemini_service.py:434-441 | normalising an analysis's own dictionary gives it back |
| GeminiService.AnalyzeContextPointer | apps/web-internal/backend/app/services/gemini_service.py:412-506 | the extended retry runs exactly when the first reply fails to parse within 50 characters of its end; a failed call or an empty reply gives the fallback analysis; the remaining outcomes are stated by AnalyzeReply, AnalyzeTruncatedReply and AnalyzeNonObjectReply |
| GeminiService.AnalyzeReply | apps/web-internal/backend/app/services/gemini_service.py:418-502 | a reply that parses to an object is normalised; a parse error away from the end falls back at once |
| GeminiService.AnalyzeTruncatedReply | apps/web-internal/backend/app/services/gemini_service.py:442-502 | after a parse error within 50 characters of the end, a retry reply that is non-empty and parses to an object gives its normalised analysis; any other retry outcome gives the fallback with the first parse error |
| GeminiService.AnalyzeNonObjectReply | apps/web-internal/backend/app/services/gemini_service.py:431-440 | a first reply that parses to a non-object fails at `.get`, and the outer handler (:504-506) returns the fallback with that error and makes no retry |
| GeminiService.AnalyzeFencedReply | apps/web-internal/backend/app/services/gemini_service.py:419-441 | a fenced JSON object reply is read from its body |
| AgentService.NameOf | apps/web-internal/backend/app/services/gemini_agent_service.py:113-124 | a string element is its own name, an object contributes its `name`, anything else is skipped; with the corrected formatter only strings are kept |
| AgentService.JoinNames | apps/web-internal/backend/app/services/gemini_agent_service.py:124 | the join succeeds exactly when every name is a string; otherwise it fails with the TypeError of a non-string name |
| AgentService.PointerLinesShape | apps/web-internal/backend/app/services/gemini_agent_service.py:100-130 | a pointer's block fails exactly on unjoinable names; otherwise it has six to ten lines |
| AgentService.LinePresence | apps/web-internal/backend/app/services/gemini_agent_service.py:100-130 | the Trade, AI Analysis and Recommendations lines appear exactly when their field is truthy, and the Elements line exactly when names were found |
| AgentService.BlockShape | apps/web-internal/backend/app/services/gemini_agent_service.py:100-130 | a block fails exactly on unjoinable names, and otherwise runs from the open tag to the close tag |
| AgentService.BlocksFailIff | apps/web-internal/backend/app/services/gemini_agent_service.py:96-132 | formatting the pointers fails exactly when some pointer's element names cannot be joined |
| AgentService.BlocksAt | apps/web-internal/backend/app/services/gemini_agent_service.py:96-132 | block i of the formatted list is the block of pointer i |
| AgentService.Prompt | apps/web-internal/backend/app/services/gemini_agent_service.py:87-132 | no pointers give the fixed text; the prompt fails exactly on unjoinable names; otherwise it opens with the first pointer's tag and ends with the close tag |
| AgentService.FormatPointersForPrompt | apps/web-internal/backend/app/services/gemini_agent_service.py:87-132 | the loop builds the prompt that `Prompt` defines, as written |
| AgentService.PointerBlock | apps/web-internal/backend/app/services/gemini_agent_service.py:100-130 | the lines of one pointer, built in turn, make its block |
| AgentService.CollectNames | apps/web-internal/backend/app/services/gemini_agent_service.py:113-122 | the name loop collects the element names in order |
| AgentService.ChatRole | apps/web-internal/backend/app/services/gemini_agent_service.py:210-216 | "user" stays "user"; every other role becomes "model" |
| AgentService.QueryTextMentions | apps/web-internal/backend/app/services/gemini_agent_service.py:218-223 | the text sent for the question contains the question and the formatted pointers |
| AgentService.Messages | apps/web-internal/backend/app/services/gemini_agent_service.py:195-225 | one message per history entry with its role mapped, then the question as a user message |
| AgentService.BuildMessages | apps/web-internal/backend/app/services/gemini_agent_service.py:195-225 | the loop builds the messages `Messages` defines |
| AgentService.SentMessages | apps/web-internal/backend/app/services/gemini_agent_service.py:275-283 | the chat is started with the converted history, and the question text is sent |
| AgentService.Fallback | apps/web-internal/backend/app/services/gemini_agent_service.py:228-234 | the fallback apologises, carries the message in its narrative and selects no pointer |
| AgentService.ReplyOf | apps/web-internal/backend/app/services/gemini_agent_service.py:310-316 | an object reply gives its three fields with their defaults; any other value gives the fallback with the AttributeError message |
| AgentService.Answer | apps/web-internal/backend/app/services/gemini_agent_service.py:270-324 | a failed call or an empty reply falls back; selected pointers come only from a parsed object's `selectedPointers` |
| AgentService.AnswerOfUnparsable | apps/web-internal/backend/app/services/gemini_agent_service.py:318-321 | a reply that does not parse falls back with the decoder's message and selects nothing |
| AgentService.AnswerOfFencedReply | apps/web-internal/backend/app/services/gemini_agent_service.py:300-316 | a fenced object reply is read from its body |
| AgentService.QueryAgent | apps/web-internal/backend/app/services/gemini_agent_service.py:237-324 | without an API key the fallback is returned; as written, `query_agent` raises exactly when a pointer's element names cannot be joined |
| AgentService.QueryAgentSeesHistory | apps/web-internal/backend/app/services/gemini_agent_service.py:264-283 | the model sees the converted history and the question text with the formatted pointers |
| AgentService.NullNameRaises | apps/web-internal/backend/app/services/gemini_agent_service.py:113-124 | an element `{"name": null}` makes the formatter as written raise, and the corrected one succeed |
| AgentService.StringsOnlyNeverRaises | apps/web-internal/backend/app/services/gemini_agent_service.py:87-132 | the corrected formatter never fails, whatever the elements hold |
| AgentService.QueryAgentCorrectedNeverRaises | apps/web-internal/backend/app/services/gemini_agent_service.py:237-324 | with the corrected formatter `query_agent` always returns a reply |
| Selection.LookupFacts | apps/web-internal/backend/app/routers/agent.py:276-278 | the pointer lookup holds exactly the pointers' ids, each mapped to a pointer with that id |
| Selection.LookupFinds | apps/web-internal/backend/app/routers/queries.py:154-156 | with distinct ids every pointer is found under its own id |
| Selection.BuildLookup | apps/web-internal/backend/app/routers/agent.py:276-278 | the loop builds the lookup that a later entry overriding an earlier one defines |
| Selection.Step | apps/web-internal/backend/app/routers/agent.py:323-334 | a kept entry is an object whose `id` is a known string, and it is kept with its index, that id and its reason (default ""); the step raises exactly on a non-object entry or a truthy list or object id |
| Selection.HitsOf | apps/web-internal/backend/app/routers/agent.py:323 | a list of entries is walked; `[]` selects nothing; only a list, "" or `{}` can be walked without raising |
| Selection.HitsSound | apps/web-internal/backend/app/routers/agent.py:323-334 | every kept entry names a known pointer and carries that entry's reason, in entry order |
| Selection.HitsComplete | apps/web-internal/backend/app/routers/agent.py:323-334 | every entry that names a known pointer is kept |
| Selection.HitsFailIff | apps/web-internal/backend/app/routers/agent.py:323-334 | the walk raises exactly when some entry raises |
| Selection.CollectHits | apps/web-internal/backend/app/routers/queries.py:230-234 | the loop, returning at the first entry that raises, computes the walk defined above |
| AgentSessions.VerifyOwnership | apps/web-internal/backend/app/routers/agent.py:39-47 | success exactly for a session of the user; 404 for an unknown session, 403 for another user's |
| AgentSessions.AutoTitle | apps/web-internal/backend/app/routers/agent.py:340 | a question of at most 50 characters is the title; a longer one keeps 50 characters and gains "..." |
| AgentSessions.FirstExchangeTitle | apps/web-internal/backend/app/routers/agent.py:337-340 | the title changes only on the session's first exchange, and only when it has none |
| AgentSessions.SessionRowsAscending | apps/web-internal/backend/app/routers/agent.py:250-256 | rows stored in creation order come out in creation order |
| AgentSessions.BuildHistory | apps/web-internal/backend/app/routers/agent.py:258-263 | the loop copies role and content of each earlier message, in order |
| AgentSessions.ReplyOf | apps/web-internal/backend/app/routers/agent.py:296-309 | the agent's reply, or the router's apology with "Error: " and the message when the agent raised |
| AgentSessions.FallbackSelectsNothing | apps/web-internal/backend/app/routers/agent.py:305-309 | after the agent raised, no pointer record is made |
| AgentSessions.LinksSelectedOnly | apps/web-internal/backend/app/routers/agent.py:323-334 | each pointer record names a committed pointer, with that pointer's sheet and the entry's reason, in entry order |
| AgentSessions.Combined | apps/web-internal/backend/app/routers/agent.py:368-369 | the highlight text is shortAnswer, a space and the narrative, and raises unless both are strings |
| AgentSessions.PriorMessages | apps/web-internal/backend/app/routers/agent.py:250-256 | the history excludes the question just stored and is in creation order |
| AgentSessions.SessionStore.UpdateSession | apps/web-internal/backend/app/routers/agent.py:177-213 | ownership errors change nothing; otherwise a supplied title replaces the old one, the session is stamped, and its messages are returned in order |
| AgentSessions.SessionStore.Store | apps/web-internal/backend/app/routers/agent.py:240-247 | one message row is appended, stamped with the clock |
| AgentSessions.SessionStore.CreateMessage | apps/web-internal/backend/app/routers/agent.py:217-387 | ownership errors change nothing; otherwise question and answer are stored, the agent sees the earlier messages, and the title rule and pointer links apply |
| AgentSessions.SessionStore.Conclude | apps/web-internal/backend/app/routers/agent.py:322-387 | pointer records for the kept entries, the title rule, the session stamp, and the highlight text's error |
| Queries.RequireProjectAssignment | apps/web-internal/backend/app/routers/queries.py:37-44 | no error exactly when the user is assigned to the project; otherwise 403 |
| Queries.RequireQueryAccess | apps/web-internal/backend/app/routers/queries.py:47-53 | access exactly for an admin, or for the query's owner assigned to its project; otherwise 403 |
| Queries.ProjectsOf | apps/web-internal/backend/app/routers/queries.py:76-80 | exactly the projects the user is assigned to |
| Queries.Limit | apps/web-internal/backend/app/routers/queries.py:86 | `LIMIT n` keeps the first n rows, and all of them when n is negative or large enough |
| Queries.ListingFacts | apps/web-internal/backend/app/routers/queries.py:56-86 | the listing holds min(limit, in-scope rows) rows (all when negative), taken from the in-scope rows, and no row left out is newer than a listed one |
| Queries.ListingMembers | apps/web-internal/backend/app/routers/queries.py:56-86 | a non-admin sees only their own queries in assigned projects; with no effective limit every in-scope query is listed |
| Queries.ListQueries | apps/web-internal/backend/app/routers/queries.py:56-86 | 403 exactly for a non-admin filtering on an unassigned project; otherwise the rows in scope, newest first, min(limit, in scope) of them, none left out newer than one listed |
| Queries.Owner | apps/web-internal/backend/app/routers/queries.py:112-120 | a non-admin owns the query when assigned (else 403); an admin names an existing user (else 404) |
| Queries.AnswerOf | apps/web-internal/backend/app/routers/queries.py:132-234 | no committed pointers or a failed agent call give the canned text and no results; otherwise the narrative, with hits only on committed pointers |
| Queries.ResultsSelectedOnly | apps/web-internal/backend/app/routers/queries.py:227-262 | each stored result names a committed pointer, carries its entry's reason, and results keep entry order |
| Queries.CannedStoresNoResults | apps/web-internal/backend/app/routers/queries.py:132-214 | with no committed pointers or a failed call, the canned text is stored and nothing else |
| Queries.QueryStore.CreateQuery | apps/web-internal/backend/app/routers/queries.py:90-268 | an unknown project is a 404 and changes nothing; ownership errors likewise; otherwise one query row and its results are stored and returned |
| FileTree.ExtendChain | apps/web-internal/backend/app/routers/files.py:47-48 | descending into a child folder extends the chain of folders by one row, which stays shorter than the file list, so the recursion ends |
| FileTree.FolderFirstTotal | apps/web-internal/backend/app/routers/files.py:51 | the sort key "folders first, then lower-cased name" orders any two nodes |
| FileTree.Forest | apps/web-internal/backend/app/routers/files.py:34-51 | the tree under a parent holds the nodes of its children, sorted by the key |
| FileTree.ForestNodes | apps/web-internal/backend/app/routers/files.py:37-49 | the tree under a parent has one node per child row and nothing else |
| FileTree.NodeShape | apps/web-internal/backend/app/routers/files.py:39-48 | a node copies its row; a folder's children are the tree under it, and anything else has none |
| FileTree.TreeIdsUnique | apps/web-internal/backend/app/routers/files.py:34-51 | in the tree from the root every file appears at most once, and only files of the project appear |
| FileTree.BuildFileTree | apps/web-internal/backend/app/routers/files.py:34-51 | the loop with its recursive calls builds the tree `Forest` defines |
| FileTree.BuildRootTree | apps/web-internal/backend/app/routers/files.py:70-78 | the endpoint's call builds the tree from the root |
| Sorting.SortBy | apps/viewm4d/viewm4d/backend/main.py:197 | sorting under a total preorder gives a sorted permutation |
| Sorting.SortByStable | apps/web-internal/backend/app/routers/files.py:51 | the sort is stable: equal-key elements keep their order |
| Retrieval.FlattenAt | apps/viewm4d/viewm4d/backend/main.py:84-105 | the flattened pointer at a sheet's offset plus j is that sheet's pointer j with the sheet's id and file name |
| Retrieval.GetAllPointers | apps/viewm4d/viewm4d/backend/main.py:84-105 | the loops flatten the sheets' pointers in order |
| Retrieval.FlattenCount | apps/viewm4d/viewm4d/backend/main.py:230-250 | the number of flattened pointers is the sum of the sheets' pointer counts |
| Retrieval.GetProject | apps/viewm4d/viewm4d/backend/main.py:230-250 | a missing project is a 404; otherwise the sheet summaries and the total pointer count |
| Retrieval.PrefixOf | apps/viewm4d/viewm4d/backend/main.py:168-200 | Python's `s[:n]`, with negative n counting from the end |
| Retrieval.Ranked | apps/viewm4d/viewm4d/backend/main.py:197 | the scored pointers sorted by score, highest first, as a permutation |
| Retrieval.ScoredComplete | apps/viewm4d/viewm4d/backend/main.py:190-195 | a pointer is scored exactly when it is one of the pointers and shares a word with the query |
| Retrieval.KeywordResultsFacts | apps/viewm4d/viewm4d/backend/main.py:183-210 | at most max_results results and at most one per pointer; each a matching pointer tagged "Keyword match"; scores never increase |
| Retrieval.KeywordResultsComplete | apps/viewm4d/viewm4d/backend/main.py:183-210 | with room for all, every pointer that shares a word with the query is returned |
| Retrieval.RankedStable | apps/viewm4d/viewm4d/backend/main.py:197 | pointers with equal scores keep their order |
| Retrieval.KeywordFallbackSearch | apps/viewm4d/viewm4d/backend/main.py:183-210 | the loops compute the keyword results defined above |
| Retrieval.PickOf | apps/viewm4d/viewm4d/backend/main.py:168-170 | an entry is taken only with an index in range |
| Retrieval.PickedFromPointers | apps/viewm4d/viewm4d/backend/main.py:167-175 | every picked match is one of the pointers |
| Retrieval.GeminiSearchFacts | apps/viewm4d/viewm4d/backend/main.py:146-181 | at most max_results matches, each a pointer; no API key, a failed call or an unparsable reply fall back to the keyword search |
| Retrieval.OutOfRangeSkipped | apps/viewm4d/viewm4d/backend/main.py:168-170 | entries with indices out of range are skipped |
| Retrieval.SearchWithGemini | apps/viewm4d/viewm4d/backend/main.py:146-181 | the search as written computes the defined result |
| Retrieval.WithBoxFacts | apps/viewm4d/viewm4d/backend/main.py:267-268 | only matches with a truthy bounding box are reported |
| Retrieval.WithBoxKeeps | apps/viewm4d/viewm4d/backend/main.py:267-268 | every match with a truthy box is reported |
| Retrieval.SearchResultCount | apps/viewm4d/viewm4d/backend/main.py:251-285 | 404 exactly for a missing project; 500 exactly when a reported match has an invalid box or reason; otherwise the count is the project's pointer total |
| Retrieval.SearchResultEntries | apps/viewm4d/viewm4d/backend/main.py:264-279 | at most max_results entries, each one of the project's pointers with a valid box and a string reason |
| Retrieval.AdmissibleEntries | apps/viewm4d/viewm4d/backend/main.py:268-278 | when every match is admissible, every entry has a valid box and a string reason |
| Retrieval.Search | apps/viewm4d/viewm4d/backend/main.py:251-285 | the endpoint computes the defined response or error |
| Retrieval.BoxedResults | apps/viewm4d/viewm4d/backend/main.py:264-279 | the loop over matches builds the entries, or fails with 500 at the first invalid one |
| ContextData.PagesForProcessing | apps/web-internal/backend/app/services/context_tree_processor.py:531-577 | the pages on PDF files with pointers that are unprocessed, failed or stuck in pass 1, by file and page number |
| ContextData.PagesForPass2 | apps/web-internal/backend/app/services/context_tree_processor.py:580-623 | the pages on PDF files with pointers that finished pass 1 or are stuck in pass 2, by file and page number |
| ContextData.TotalPageCount | apps/web-internal/backend/app/services/context_tree_processor.py:725-735 | the number of pages on the project's PDF files |
| Inbound.ComputedInbound | apps/web-internal/backend/app/services/context_tree_processor.py:132-199 | every `pass1_complete` page of the project gets the inbound entries aimed at it; other pages are unchanged |
| Inbound.PageLookupLast | apps/web-internal/backend/app/services/context_tree_processor.py:150-156 | a normalised sheet number maps to the sheet of the last page carrying it |
| Inbound.InboundEntrySpec | apps/web-internal/backend/app/services/context_tree_processor.py:158-199 | an entry is inbound to a sheet exactly when some source page's pointer has a reference resolving to it; such entries have no context yet and a non-empty reference |
| Inbound.ReferenceReachesPage | apps/web-internal/backend/app/services/context_tree_processor.py:158-199 | a reference whose normal form is some page's sheet key lands in that page's inbound list |
| Inbound.EmptyRefDoesNotResolve | apps/web-internal/backend/app/services/context_tree_processor.py:166-170 | an empty reference never resolves |
| Inbound.PropagateEntry | apps/web-internal/backend/app/services/context_tree_processor.py:245-262 | an entry gets the context stored for its source sheet and reference, keeps an existing one otherwise, and "" when it has none; nothing else changes |
| Inbound.Propagated | apps/web-internal/backend/app/services/context_tree_processor.py:202-272 | pages that are not `pass2_complete` are untouched; every other page's inbound entries are propagated |
| Inbound.PropagatedHaveContext | apps/web-internal/backend/app/services/context_tree_processor.py:202-272 | after propagation every inbound entry of a target page has a context |
| Inbound.TargetsAfterPropagation | apps/web-internal/backend/app/services/context_tree_processor.py:220-240 | propagation does not change the context lookup it reads |
| Inbound.PropagateIdempotent | apps/web-internal/backend/app/services/context_tree_processor.py:202-272 | propagating twice is propagating once |
| Lifecycle.ValidDiscipline | apps/web-internal/backend/app/services/context_tree_processor.py:1235-1242 | a known code is kept; anything else, missing included, becomes "G" |
| Lifecycle.Pass1Outcome | apps/web-internal/backend/app/services/context_tree_processor.py:1194-1290 | pass 1 either completes the page with a known discipline and no error, or fails it with the exception's message; no other row changes |
| Lifecycle.Pass1AlwaysFailsAsWritten | apps/web-internal/backend/app/services/context_tree_processor.py:809 | as written the prompt never builds, so pass 1 fails every page without calling the model |
| Lifecycle.Pass1FailureMessage | apps/web-internal/backend/app/services/context_tree_processor.py:1228-1288 | a model failure leaves its own message on the page; the inner prefix is overwritten by the outer handler |
| Lifecycle.NoPageCompletesAsWritten | apps/web-internal/backend/app/services/context_tree_processor.py:809 | as written a pass-1 step never completes its page and leaves the discipline rows alone |
| Lifecycle.UpdatedContext | apps/web-internal/backend/app/services/context_tree_processor.py:1470-1485 | the legacy context starts with the description, and equals it when no reference has a context |
| Lifecycle.Pass2Outcome | apps/web-internal/backend/app/services/context_tree_processor.py:1417-1526 | pass 2 either completes the page with no error and an updated context that starts with its description, or fails it with the exception's message; other pages are unchanged |
| Lifecycle.CodePagesPositive | apps/web-internal/backend/app/services/context_tree_processor.py:1540-1552 | the count of a code's pages is positive exactly when the code has a page |
| Lifecycle.CodePagesAllComplete | apps/web-internal/backend/app/services/context_tree_processor.py:1540-1560 | both counts agree exactly when every page of the code finished pass 2 |
| Lifecycle.AllCodePagesDoneIff | apps/web-internal/backend/app/services/context_tree_processor.py:1528-1582 | the readiness test holds exactly when the code has a page on a PDF file and every such page finished pass 2 |
| Lifecycle.CheckReadySpec | apps/web-internal/backend/app/services/context_tree_processor.py:1528-1582 | the discipline moves from waiting to ready, is announced and queued exactly when all its pages finished pass 2 and it was waiting; otherwise nothing changes |
| Lifecycle.CheckReadyOnce | apps/web-internal/backend/app/services/context_tree_processor.py:1528-1582 | asking again once the discipline is ready changes nothing |
| Lifecycle.Enqueue | apps/web-internal/backend/app/services/context_tree_processor.py:1604-1615 | the pair is queued once: appended when absent, the queue unchanged when present |
| Lifecycle.EnsureDisciplines | apps/web-internal/backend/app/services/context_tree_processor.py:507-528 | existing rows are kept; new rows are waiting rows for given codes, named after their code |
| Lifecycle.EnsureDisciplinesCovers | apps/web-internal/backend/app/services/context_tree_processor.py:507-528 | every given code has a row afterwards |
| Lifecycle.RunPass1Counts | apps/web-internal/backend/app/services/context_tree_processor.py:1123-1192 | every selected page is counted once, as completed or as an error |
| Lifecycle.RunPass2Counts | apps/web-internal/backend/app/services/context_tree_processor.py:1292-1347 | every selected page of pass 2 is counted once, and a page not found counts as completed |
| Lifecycle.RetryableCount | apps/web-internal/backend/app/services/context_tree_processor.py:1376-1377 | no orphan is retryable exactly when every orphan used its three retries |
| Lifecycle.SweptPages | apps/web-internal/backend/app/services/context_tree_processor.py:1391-1405 | exactly the retryable orphans are reset to unprocessed with one more retry and no error |
| Lifecycle.SweptBudget | apps/web-internal/backend/app/services/context_tree_processor.py:1349-1415 | a sweep never raises the remaining retry budget, and lowers it when it resets a page |
| Lifecycle.SweepSpecFacts | apps/web-internal/backend/app/services/context_tree_processor.py:1349-1415 | the sweep resets exactly the retryable orphans, leaves other pages as they were, and reports the others |
| Lifecycle.PassesKeepBudget | apps/web-internal/backend/app/services/context_tree_processor.py:1123-1347 | passes 1 and 2 do not touch retry counts |
| Lifecycle.RetryRoundSpec | apps/web-internal/backend/app/services/context_tree_processor.py:1085-1105 | a retry round lowers the budget when it resets pages; one that resets none leaves no retryable page and reports the exhausted ones |
| Lifecycle.RetryLoop | apps/web-internal/backend/app/services/context_tree_processor.py:1085-1105 | the retry loop ends, leaving no retryable page and reporting exactly the pages out of retries |
| Lifecycle.StartSpec | apps/web-internal/backend/app/services/context_tree_processor.py:1024-1121 | a run ends with no retryable page and reports exactly the orphans out of retries as permanently failed |
| Lifecycle.RunEndsSettled | apps/web-internal/backend/app/services/context_tree_processor.py:1024-1121 | after a run every page on a PDF file is past pass 1 or out of retries, and the latter are exactly the ones reported |
| Lifecycle.PdfLocs | apps/web-internal/backend/app/services/context_tree_processor.py:445-460 | the pointed-at pages on PDF files, each once |
| Lifecycle.EnsureFold | apps/web-internal/backend/app/services/context_tree_processor.py:462-500 | the loop keeps old rows' ids, keys and statuses and appends only fresh unprocessed rows |
| Lifecycle.EnsurePagesCovers | apps/web-internal/backend/app/services/context_tree_processor.py:426-504 | afterwards every pointed-at page of a PDF file has a row; old rows keep their ids, keys and statuses; the new rows, exactly `created` of them, are unprocessed with no retries |
| Lifecycle.LinkPages | apps/web-internal/backend/app/services/context_tree_processor.py:1720-1735 | the discipline is linked to exactly its PDF pages that finished pass 2; only that field changes |
| Lifecycle.Pass3Outcome | apps/web-internal/backend/app/services/context_tree_processor.py:1645-1749 | pass 3 succeeds exactly when the discipline exists and the model answers; it then stores the reply and is complete, otherwise it is failed |
| Lifecycle.Pass3Fold | apps/web-internal/backend/app/services/context_tree_processor.py:1617-1643 | every pair tried counts once, as completed or failed |
| Lifecycle.ReadyCodes | apps/web-internal/backend/app/services/context_tree_processor.py:1771-1785 | exactly the disciplines of the project in the ready state |
| Lifecycle.ProcessAllReadyCounts | apps/web-internal/backend/app/services/context_tree_processor.py:1751-1795 | every queued pair and every discipline left ready is tried once, and the queue ends empty |
| ContextTreeProcessor.LinkDisciplinePages | apps/web-internal/backend/app/services/context_tree_processor.py:1720-1735 | the loop links exactly the pages `LinkPages` links |
| ContextTreeProcessor.Pipeline.Emit | apps/web-internal/backend/app/services/context_tree_processor.py:1016-1022 | appends the event; nothing else changes |
| ContextTreeProcessor.Pipeline.ComputeInboundReferences | apps/web-internal/backend/app/services/context_tree_processor.py:132-199 | the page table afterwards is `ComputedInbound` of the table before |
| ContextTreeProcessor.Pipeline.PropagateInboundContext | apps/web-internal/backend/app/services/context_tree_processor.py:202-272 | the page table afterwards is `Propagated` of the table before |
| ContextTreeProcessor.Pipeline.EnsurePageContextsExist | apps/web-internal/backend/app/services/context_tree_processor.py:426-504 | the page table and the count created are those of `EnsurePagesSpec` |
| ContextTreeProcessor.Pipeline.EnsureDisciplineContextsExist | apps/web-internal/backend/app/services/context_tree_processor.py:507-528 | the discipline table afterwards is `EnsureDisciplines` of the one before |
| ContextTreeProcessor.Pipeline.ProcessPass1 | apps/web-internal/backend/app/services/context_tree_processor.py:1194-1290 | the state and result are those of `Pass1Step` |
| ContextTreeProcessor.Pipeline.Pass1Loop | apps/web-internal/backend/app/services/context_tree_processor.py:1140-1180 | the loop over the selected pages computes `Pass1Fold` |
| ContextTreeProcessor.Pipeline.RunPass1 | apps/web-internal/backend/app/services/context_tree_processor.py:1123-1192 | the state and tally are those of `RunPass1Spec` |
| ContextTreeProcessor.Pipeline.OnDisciplineReady | apps/web-internal/backend/app/services/context_tree_processor.py:1604-1615 | the queue afterwards is `Enqueue` of the one before |
| ContextTreeProcessor.Pipeline.CheckDisciplineReady | apps/web-internal/backend/app/services/context_tree_processor.py:1528-1582 | the state and answer are those of `CheckReady` |
| ContextTreeProcessor.Pipeline.ProcessPass2 | apps/web-internal/backend/app/services/context_tree_processor.py:1417-1526 | the state and result are those of `Pass2Step` |
| ContextTreeProcessor.Pipeline.Pass2Loop | apps/web-internal/backend/app/services/context_tree_processor.py:1310-1340 | the loop over the selected pages computes `Pass2Fold` |
| ContextTreeProcessor.Pipeline.RunPass2 | apps/web-internal/backend/app/services/context_tree_processor.py:1292-1347 | the state and tally are those of `RunPass2Spec` |
| ContextTreeProcessor.Pipeline.SweepAndRetryOrphans | apps/web-internal/backend/app/services/context_tree_processor.py:1349-1415 | the state and result are those of `SweepSpec` |
| ContextTreeProcessor.Pipeline.RetryRound | apps/web-internal/backend/app/services/context_tree_processor.py:1085-1105 | the state and tallies are those of `RetryRoundSpec` |
| ContextTreeProcessor.Pipeline.StartProcessing | apps/web-internal/backend/app/services/context_tree_processor.py:1024-1121 | the state and summary are those of `StartSpec`, and no page is left retryable |
| ContextTreeProcessor.Pipeline.RunPass3 | apps/web-internal/backend/app/services/context_tree_processor.py:1645-1749 | the state and answer are those of `Pass3Step` |
| ContextTreeProcessor.Pipeline.PopAndRun | apps/web-internal/backend/app/services/context_tree_processor.py:1627-1640 | taking the next pair off the queue and running it advances the fold by one pair |
| ContextTreeProcessor.Pipeline.ProcessQueue | apps/web-internal/backend/app/services/context_tree_processor.py:1617-1643 | the state and tally are those of `ProcessQueueSpec` |
| ContextTreeProcessor.Pipeline.ProcessAllReady | apps/web-internal/backend/app/services/context_tree_processor.py:1751-1795 | the state and tally are those of `ProcessAllReadySpec` |
| ContextTreeProcessor.Pipeline.ProcessProjectContextTree | apps/web-internal/backend/app/services/context_tree_processor.py:1797-1834 | the state and tally are those of `ProcessProjectSpec` |
| JobRegistry.OfferDelivers | apps/web-internal/backend/app/routers/context_tree.py:77-84 | a broadcast appends the message to every subscriber's queue with room, drops it for a full queue, and keeps queues bounded |
| JobRegistry.OfferAllDelivers | apps/web-internal/backend/app/routers/context_tree.py:77-84 | a subscriber with room for all receives the messages in order |
| JobRegistry.UnsubscribeUndoesSubscribe | apps/web-internal/backend/app/routers/context_tree.py:87-109 | unsubscribing a queue just subscribed restores the subscriber table |
| JobRegistry.CountPageStatuses | apps/web-internal/backend/app/routers/context_tree.py:192-227 | the total is the number of pages on PDF files with pointers, and the status counts do not exceed it |
| JobRegistry.CountStatusAll | apps/web-internal/backend/app/routers/context_tree.py:192-227 | a status count equals the total exactly when every counted page has that status |
| JobRegistry.CountDisciplineStatuses | apps/web-internal/backend/app/routers/context_tree.py:230-248 | the total is the number of discipline rows |
| JobRegistry.ResetPages | apps/web-internal/backend/app/routers/context_tree.py:640-660 | every page on a PDF file is reset; other pages are untouched |
| JobRegistry.ResetSelectsAll | apps/web-internal/backend/app/routers/context_tree.py:623-686 | after a reset every page on a PDF file has no retries, and pass 1 selects exactly the pages on PDF files that carry pointers |
| JobRegistry.DefaultDisciplines | apps/web-internal/backend/app/routers/context_tree.py:594-622 | one waiting row per discipline code, in the table's order |
| JobRegistry.DefaultDisciplinesComplete | apps/web-internal/backend/app/routers/context_tree.py:594-622 | the default rows carry their codes' names, and ensuring known codes afterwards adds nothing |
| JobRegistry.ByCode | apps/web-internal/backend/app/routers/context_tree.py:580-590 | the listing is a permutation of the rows, sorted by code |
| JobRegistry.Registry.ActiveJob | apps/web-internal/backend/app/routers/context_tree.py:54-59 | a job is returned exactly when the project has one of that type |
| JobRegistry.Registry.CreateJob | apps/web-internal/backend/app/routers/context_tree.py:62-69 | the project's job is replaced by one with a fresh id |
| JobRegistry.Registry.ClearJob | apps/web-internal/backend/app/routers/context_tree.py:72-74 | the project's job is removed |
| JobRegistry.Registry.Broadcast | apps/web-internal/backend/app/routers/context_tree.py:77-84 | the message is offered to every subscriber queue of the project; nothing else changes |
| JobRegistry.Registry.Subscribe | apps/web-internal/backend/app/routers/context_tree.py:87-93 | a fresh empty queue is added to the project's subscribers |
| JobRegistry.Registry.Unsubscribe | apps/web-internal/backend/app/routers/context_tree.py:96-109 | the queue leaves the project's subscribers, and a project left with none is dropped |
| JobRegistry.Registry.Trigger | apps/web-internal/backend/app/routers/context_tree.py:288-361 | 404 for a missing project; a running job of the type is reported and kept; otherwise a new job with a fresh id is registered |
| JobRegistry.Registry.RunPageProcessing | apps/web-internal/backend/app/routers/context_tree.py:111-145 | the page run's events are broadcast, tagged with the job, then the completion; the job is cleared and no page is left retryable |
| JobRegistry.Registry.RunDisciplineProcessing | apps/web-internal/backend/app/routers/context_tree.py:148-180 | the discipline run's events are broadcast, then the completion; the job is cleared |
| JobRegistry.Registry.PagesStatus | apps/web-internal/backend/app/routers/context_tree.py:251-264 | "processing" exactly while a page job runs; "complete" exactly when none runs, there are counted pages, and all of them finished pass 2 |
| JobRegistry.Registry.DisciplinesStatus | apps/web-internal/backend/app/routers/context_tree.py:267-287 | "complete" exactly when no job runs and every discipline is complete; "processing" exactly while a job runs or some discipline is in progress |
| JobRegistry.Registry.ProcessingStatus | apps/web-internal/backend/app/routers/context_tree.py:363-398 | 404 exactly for a missing project; otherwise totals over the counted pages and the discipline rows |
| JobRegistry.Registry.ResetPageProcessing | apps/web-internal/backend/app/routers/context_tree.py:623-686 | 404 for a missing project and 409 while a job runs, changing nothing; otherwise, when the project has a PDF file, every page on a PDF file and every discipline is reset and their counts are returned, and without one nothing changes and (0, 0) is returned |
| JobRegistry.Registry.ListDisciplineContexts | apps/web-internal/backend/app/routers/context_tree.py:551-593 | 404 for a missing project, changing nothing; an empty table is filled with the default rows when asked and those are returned; otherwise the rows are returned sorted by code and nothing changes |
| JobRegistry.CompleteMeansPass2Done | apps/web-internal/backend/app/routers/context_tree.py:251-264 | a "complete" page status means every counted page finished pass 2 |
| JobRegistry.CompleteMeansAllDisciplinesDone | apps/web-internal/backend/app/routers/context_tree.py:267-287 | a "complete" discipline status means there are disciplines and all are complete |

## Left out

- Text.Upper: `Upper`, `Lower` and `IsDigit` are ASCII-only, whereas Python's `str.upper()`, `str.lower()` and the regex `\d` are Unicode-aware (`"ß".upper()` is `"SS"`; the model keeps `"ß"`). This reaches the following; every contract above holds for the ASCII reading:
  - SheetRefs.NormalizeSheetRef;
  - SheetRefs.ExtractSheetNumberFromFilename;
  - FileTree.FolderFirst;
  - Retrieval.Searchable and Retrieval.HitWords;
  - the highlight labels of GeminiService.ParseHighlightResponse.
- JsonValue.Json: numbers are integers only. A float such as `"index": 1.0` makes Python raise a TypeError at `pointers[idx]`, and the search falls back to keywords; the model cannot express that input. Float coordinates in a bounding box are valid numbers in both.
- Lifecycle.Pass1Fold: pass 1 and pass 2 run one page after another in selection order. The source runs them through a semaphore of five with `asyncio.gather`, so the interleaving of commits and events is not modelled.
- Lifecycle.Pass2Fold: the same sequential reading applies.
- Lifecycle.RunPass1Spec: discovered discipline codes are kept in discovery order. The source keeps a `set`, whose iteration order decides the order of new discipline rows.
- Lifecycle.Pass1Step: the reply is a typed `Pass1Reply`. A reply of another shape (a list, a missing nested field) is modelled as a model failure with its message, not as the AttributeError raised inside the handler.
- Retrieval.SheetPointer: sheets and pointers are typed records. The KeyError that a missing `id`, `sheetId`, `fileName`, `originalMetadata` or `aiAnalysis` raises (main.py:90-98) is not modelled. Nor is the TypeError that a non-string `transcribedText` item raises in the keyword join (main.py:190).
- ContextData.Page: fields that can be `None` in the database (titles, sheet numbers, descriptions) are strings with "" for `None`. Where the source tests truthiness this is the same; a `None` passed on verbatim is not distinguished from "".
- Retrieval.ValidBox: only JSON numbers count as valid coordinates. A numeric string or a boolean that pydantic would coerce counts as invalid, so the model reports a 500 there.
- JobRegistry.Registry: the SSE `event_generator` (context_tree.py:401-460) is not modelled, so queues fill up to their bound and are never drained. Heartbeats and disconnect handling go with it.
- JobRegistry.Registry.RunPageProcessing: a run's events are delivered after the run, not interleaved with other requests.
- Logging, `print`, the `_debug_log` file writes (queries.py:460-471) and the timestamps they carry are not modelled.
- The highlight extraction (`extract_highlights_from_response`, agent.py:349-373) and `relevance_score` ordering are not modelled. Only the combined text's type error is kept (AgentSessions.Combined).
- Prompt texts (`build_pass1_prompt`, `build_pass2_prompt`, `build_pass3_prompt`, `build_system_prompt`, `build_search_prompt`) are not modelled beyond whether the pass-1 prompt builds. The model sees prompts only through its oracle.
- The Gemini, Grok and database clients, the JSON decoder, base64 and PDF page counting are parameters: oracles, a `parse` function and the `Env` of a run. `json.loads` is a function from text to a value or a decode error with its position.
- Timing: the backoff delays are returned as a plan, not slept, and `TIMEOUT` is not modelled.
- The other CRUD endpoints of these routers (sessions, files, scans, query results, history) are not modelled, nor are authentication and the ORM's transactions.
- Ids are natural numbers drawn from counters, standing for UUIDs; `utcnow()` is the same counter.
- Lifecycle.Pass2Step: the pass-2 reply's other fields and its legacy identifiers are kept only as far as `updated_context` and the cross-references need them.

## Findings

| source | as written | input that shows it | evidently intended | confidence | as-written member | corrected member |
|---|---|---|---|---|---|---|
| apps/web-internal/backend/app/services/context_tree_processor.py:809 | the pass-1 prompt template interpolates `spans_section`, which is defined nowhere in `build_pass1_prompt` or the module, so building the prompt raises NameError; the outer handler (:1277-1288) marks the page `error`, and no page ever completes pass 1 | any page selected for pass 1, e.g. a fresh page with one pointer | the prompt builds (with an empty spans section) and the model's reply decides the page | high (not executed) | Lifecycle.Pass1AlwaysFailsAsWritten | Lifecycle.Pass1Outcome |
| apps/web-internal/backend/app/services/gemini_agent_service.py:264 | `format_pointers_for_prompt` runs before the `try` at :270, and its `', '.join(names)` (:124) raises TypeError for a non-string element name, so `query_agent` raises instead of returning its fallback | a pointer whose `elements` is `[{"name": null}]` | every failure ends in the fallback reply, as the rest of `query_agent` does | high (not executed) | AgentService.NullNameRaises | AgentService.QueryAgentCorrectedNeverRaises |
