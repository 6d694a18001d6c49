# rag-chatbot core, modelled in Dafny

This project models the logic of the rag-chatbot web application that can be
stated and checked, and proves properties of it:

- **The chat endpoint** (`POST /api/chat`). It validates the request: there
  must be a message list, and its last message must not be blank. It formats
  the earlier turns as a `Human:` / `Assistant:` transcript. It hands the
  question, the transcript and the locale to the answer pipeline. It answers
  with the pipeline's stream, or with a JSON error (400 or 500).
- **The answer pipeline** (`processUserMessage`). It chooses English or
  Arabic prompt templates from the locale. A non-streaming, temperature-0
  model rewrites the question. The rewrite is used to search the vector store
  for 3 passages, which are joined with a blank line. Finally it streams an
  answer to the rewrite from that context. The language models and the
  vector store are function-valued parameters. Each run returns the sequence
  of calls it made together with its outcome, so the wiring (argument flow,
  order, `k`, the locale choice, error wrapping) is stated on that trace.
- **The navbar** and its navigation table:
  - the rule that picks the active item from the pathname;
  - the click handler;
  - the map of item elements.
- **The language switcher and the theme toggle.** Each has:
  - a lookup with a fallback for the current choice;
  - which option is active, and which icons the toggle shows;
  - an open/close dropdown state machine whose outside-click listener exists
    only while the menu is open.

React state that handlers update in place is modelled as classes with
`modifies` clauses: `Navbar.Navbar`, `LanguageSwitcher.Switcher` and
`ThemeToggle.Toggle`. The values the hooks supply are method parameters: the
pathname, the locale and the theme-provider's theme. Calls into the router
and into `setTheme` become logs held in fields. Strings are sequences of
Unicode scalar values. `trim` removes the ECMAScript whitespace and
line-terminator characters.

Two behaviours of the code are worth knowing. They are modelled as written:

- `processUserMessage` returns the answer step's stream without awaiting it
  inside its `try`. Only a failure of the rewrite or of the search becomes
  "Failed to process your message". A failure to start the answer stream
  reaches the route unchanged, and the route answers both with 500.
- The route always passes a locale (`"en"` when the body has none), so the
  pipeline's own default is never used by the route.

## Model

| member | source | states |
|---|---|---|
| Seqs.Find | components/shared/navbar.tsx:27-34 | `Array.prototype.find`: None exactly when no element satisfies the predicate; otherwise the first element that does, every earlier one failing it |
| Strings.TrimStart | app/api/chat/route.ts:27 | removes exactly the leading run of whitespace: what is dropped is all whitespace and what remains is a suffix that does not start with whitespace |
| Strings.TrimEnd | app/api/chat/route.ts:27 | removes exactly the trailing run of whitespace: the result is a prefix that does not end with whitespace, and the dropped tail is all whitespace |
| Strings.Trim | app/api/chat/route.ts:27 | `trim` returns a slice of its input with only whitespace before and after it, and the slice neither starts nor ends with whitespace |
| Strings.TrimEmptyIffAllWhitespace | app/api/chat/route.ts:27 | trimming leaves nothing if and only if every character is whitespace (the empty string included) |
| Strings.IsBlank | app/api/chat/route.ts:27 | `!s.trim()` holds if and only if every character of `s` is whitespace |
| Strings.Join | app/api/chat/route.ts:42 | `join` of no parts is the empty string, and otherwise the result starts with the first part |
| Strings.JoinAppend | app/api/chat/route.ts:42 | joining one more part appends the separator and that part to the earlier join |
| Strings.JoinPartAt | utils/langchain.ts:51 | every part of a join stands at its offset, in order, and the last part ends the string |
| Strings.JoinSeparatorAt | utils/langchain.ts:51 | exactly the separator stands between two consecutive parts of a join |
| Strings.SplitJoin | app/api/chat/route.ts:42 | splitting a join on a separator character that no part contains gives back the parts, so the join loses nothing |
| Rag.InquiryPrompt | utils/langchain.ts:67-149 | the rewrite template is in the chosen language, is a system message followed by a human message, and has exactly the slots `userPrompt` and `conversationHistory` |
| Rag.QaPrompt | utils/langchain.ts:152-270 | the answer template is in the chosen language, is a system message followed by a human message, and has exactly the slots `context` and `question` |
| Rag.Context | utils/langchain.ts:51 | no passages give the empty context; one passage gives exactly its text; otherwise the context starts with the first passage returned |
| Rag.PageContents | utils/langchain.ts:51 | one text per document, the document's `pageContent`, in returned order |
| Rag.ProcessUserMessage | utils/langchain.ts:20-64 | the steps run strictly in order (rewrite, then search, then answer), and one that fails stops the run; a run that stops before the answer step fails with "Failed to process your message" |
| Rag.RewriteInputs | utils/langchain.ts:31-47 | the rewrite uses gpt-3.5-turbo at temperature 0 without streaming; its inputs are exactly the user prompt and the history, and they fill exactly the template's slots |
| Rag.SearchUsesRewrite | utils/langchain.ts:41-50 | the search runs if and only if the rewrite succeeded; its query is the rewrite's result and k is 3 |
| Rag.AnswerUsesContextAndRewrite | utils/langchain.ts:50-59 | the answer step runs if and only if the search succeeded. It uses the model passed in. Its inputs are the joined passages and the rewritten question, not the raw prompt. The pipeline's outcome is that step's outcome, unwrapped |
| Rag.ArabicIffLocaleAr | utils/langchain.ts:25-54 | the rewrite step uses the `getInquiryPrompt` template and the answer step the `getQAPrompt` template, both chosen by the same flag. The Arabic templates are used if and only if the locale is exactly "ar". A missing locale means English |
| Rag.NoHitsGiveEmptyContext | utils/langchain.ts:50-51 | a search with no hits is not an error: the answer step still runs, with the empty string as context |
| Rag.ContextPassageAt | utils/langchain.ts:51 | each passage stands in the context at its offset, in returned order, and consecutive passages are separated by exactly "\n\n" |
| ChatRoute.SpeakerLabel | app/api/chat/route.ts:38 | the label is "Human" if and only if the role is "user"; every other role is "Assistant" |
| ChatRoute.HistoryLine | app/api/chat/route.ts:37-41 | a user turn is written "Human: " followed by its content, and every other turn "Assistant: " followed by its content |
| ChatRoute.Previous | app/api/chat/route.ts:35 | `slice(0, -1)`: a prefix of the messages, one shorter, and empty for no messages |
| ChatRoute.FormatHistory | app/api/chat/route.ts:34-42 | the transcript is empty if and only if there is at most one message; otherwise it starts with the first turn's line |
| ChatRoute.HistoryLines | app/api/chat/route.ts:34-41 | one line per message except the last; line `i` describes message `i` |
| ChatRoute.Validate | app/api/chat/route.ts:17-32 | the request is refused if and only if the list is missing or empty (error "No messages provided") or the last content is blank (error "Empty question provided"). Otherwise the question is the last content, untrimmed; the history is the transcript; the locale is the body's, or "en" |
| ChatRoute.Post | app/api/chat/route.ts:13-72 | every error has status 400 or 500. Status 400 is returned if and only if validation failed, and then no collaborator is called. Status 500 always carries "An unexpected error occurred". A body that is not JSON, or a failed store connection after validation, gives that 500. A validated request with a connected store is answered by the hand-off |
| ChatRoute.Delegate | app/api/chat/route.ts:53-70 | the calls are the connection followed by the pipeline's calls. The response is a stream if and only if the pipeline succeeded, and then it is the pipeline's own stream. Otherwise it is 500 with "An unexpected error occurred" |
| ChatRoute.NoMessagesRejected | app/api/chat/route.ts:17-25 | a missing or empty list gives 400 "No messages provided" and no call |
| ChatRoute.BlankQuestionRejected | app/api/chat/route.ts:26-32 | an all-whitespace last message gives 400 "Empty question provided" and no call |
| ChatRoute.AcceptedIsDelegated | app/api/chat/route.ts:53-59 | a validated request with a connected store is answered by the pipeline hand-off |
| ChatRoute.DelegatePassesRequest | app/api/chat/route.ts:53-64 | the connection comes first, then the rewrite, which gets the accepted question and history in the accepted locale's language; the response is a stream exactly when the answer stream started |
| ChatRoute.ValidRequestReachesRewrite | app/api/chat/route.ts:18-64 | the same, stated for `POST` on any request that passes validation |
| ChatRoute.HistoryIgnoresCurrent | app/api/chat/route.ts:34-35 | the transcript does not depend on the message being answered |
| ChatRoute.SingleMessageEmptyHistory | app/api/chat/route.ts:34-42 | a single-message request has the empty transcript |
| ChatRoute.HistoryGrowsByOneLine | app/api/chat/route.ts:34-42 | one more turn adds "\n" and that turn's line at the end, and the earlier lines are unchanged |
| ChatRoute.HistoryLineAt | app/api/chat/route.ts:37-42 | line `i` of the transcript is "label: content" for turn `i`, at its offset, followed by a single "\n" unless it is the last line |
| ChatRoute.HistorySplitsIntoTurns | app/api/chat/route.ts:34-42 | when no content holds a newline, splitting the transcript on "\n" gives one labelled line per earlier turn, in order |
| Navigation.TableShape | constants/navigation.ts:10-41 | three items, in the order home, upload, contact, with pairwise distinct ids |
| Navigation.RootIsHome | constants/navigation.ts:11-16 | exactly the first item has href "/", and its id is "home", the fallback id |
| Navigation.HrefsWellFormed | constants/navigation.ts:10-41 | every href starts with "/" and no non-root href ends with "/" |
| Navigation.NoHrefNestsAnother | constants/navigation.ts:17-40 | no non-root `href + "/"` is a prefix of another item's href |
| Navbar.CurrentPath | components/shared/navbar.tsx:24 | an absent or empty pathname is "/"; any other pathname is kept |
| Navbar.ItemMatches | components/shared/navbar.tsx:28-33 | a path matches an item if and only if it starts with the item's href and either ends there or, for a non-root item, continues with "/": the root matches only "/", and any other item matches its href and every path below it |
| Navbar.MatchingItem | components/shared/navbar.tsx:27-34 | a found item is in the table and matches the path; nothing is found if and only if no item matches |
| Navbar.ActiveNavFor | components/shared/navbar.tsx:22-42 | the active id is always the id of an item of the table |
| Navbar.MatchIsCandidate | components/shared/navbar.tsx:27-34 | a path can be matched only by the item its form selects: the root for "/", otherwise the item whose href shares its second character |
| Navbar.AtMostOneMatch | components/shared/navbar.tsx:27-34 | no path is matched by two items |
| Navbar.ActiveNavIsTheMatch | components/shared/navbar.tsx:27-41 | the active id is that of the item matching the path, and "home" when none matches |
| Navbar.RootMatchesOnlySlash | components/shared/navbar.tsx:24-31 | the root item matches exactly the path "/", and an absent or empty pathname selects "home" |
| Navbar.HrefAndSubPathsActivateItem | components/shared/navbar.tsx:27-41 | every non-root item is active on its own href and on every path that continues its href with "/" |
| Navbar.SubPathBoundary | components/shared/navbar.tsx:33 | "/upload" and "/upload/report.pdf" match the upload item, "/uploads" matches nothing and falls back to "home" |
| Navbar.Navbar.constructor | components/shared/navbar.tsx:17-19 | the initial active id is "home" and the element map is empty |
| Navbar.Navbar.ActiveElement | components/shared/navbar.tsx:54 | the element the slider measures is the one registered under the active id, and nothing when none is |
| Navbar.Navbar.IsActiveItem | components/shared/navbar.tsx:175 | only an item of the table can be styled active, and only while the active id is a table id |
| Navbar.Navbar.SyncWithPathname | components/shared/navbar.tsx:22-42 | the effect sets the active id to `ActiveNavFor(pathname)` and leaves the element map alone |
| Navbar.Navbar.ClickItem | components/shared/navbar.tsx:183-185 | a click makes that item's id active at once, leaving the element map alone |
| Navbar.Navbar.SetItemRef | components/shared/navbar.tsx:179-181 | the ref callback records (or clears) the item's element under its id, and nothing else changes |
| Navbar.ExactlyOneActiveItem | components/shared/navbar.tsx:173-175 | exactly one item is styled active |
| Dropdown.WithOpen | components/shared/custom-language-switcher.tsx:23-37 | setting the open flag sets it; a change re-runs the effect, so the listener is attached exactly when the menu is open |
| Dropdown.Toggled | components/shared/custom-language-switcher.tsx:50 | the trigger flips the open flag, and the listener follows it |
| Dropdown.AfterMouseDown | components/shared/custom-language-switcher.tsx:24-28 | an attached listener closes the menu on a press outside; otherwise nothing changes |
| Dropdown.ToggleTwice | components/shared/custom-theme-toggle.tsx:63 | two presses of the trigger give back the menu as it was |
| Dropdown.MouseDownEffect | components/shared/custom-theme-toggle.tsx:25-39 | once settled, a press outside closes an open menu, a press inside changes nothing, and a closed menu ignores every press |
| LanguageSwitcher.IsRtl | components/shared/custom-language-switcher.tsx:20 | right-to-left holds only for a locale of the table |
| LanguageSwitcher.CurrentLanguage | components/shared/custom-language-switcher.tsx:44 | the current language is an entry of the table, either the locale's own or the first (English) |
| LanguageSwitcher.IsActiveOption | components/shared/custom-language-switcher.tsx:73 | an option of the table can be active only when the locale is in the table |
| LanguageSwitcher.MenuSide | components/shared/custom-language-switcher.tsx:20 | the menu is anchored left if and only if the locale is "ar" |
| LanguageSwitcher.CurrentLanguageFor | components/shared/custom-language-switcher.tsx:44 | the current language is the entry whose code is the locale, and English when none is |
| LanguageSwitcher.RtlIffArabicCurrent | components/shared/custom-language-switcher.tsx:20 | right-to-left holds if and only if Arabic is the current language |
| LanguageSwitcher.ActiveOptions | components/shared/custom-language-switcher.tsx:73 | at most one option is active; one is if and only if the locale is in the table, and it is then the current language. For an unknown locale, English is current but not active |
| LanguageSwitcher.Switcher.constructor | components/shared/custom-language-switcher.tsx:15 | the menu starts closed, with no listener and no route change |
| LanguageSwitcher.Switcher.ToggleOpen | components/shared/custom-language-switcher.tsx:50 | the trigger flips `isOpen` and requests no route change |
| LanguageSwitcher.Switcher.MouseDown | components/shared/custom-language-switcher.tsx:24-36 | after a press the menu is open if and only if it was open and the press was inside |
| LanguageSwitcher.Switcher.HandleLanguageChange | components/shared/custom-language-switcher.tsx:39-42 | one route replacement with the same pathname and the new locale is requested, and the menu is closed |
| LanguageSwitcher.Switcher.SelectOption | components/shared/custom-language-switcher.tsx:78 | choosing an option requests the replacement with that option's code and closes the menu |
| ThemeToggle.EffectiveTheme | components/shared/custom-theme-toggle.tsx:56 | a non-empty theme is kept; an absent or empty one is "system" |
| ThemeToggle.CurrentIcon | components/shared/custom-theme-toggle.tsx:57 | a known theme gets the icon of its table entry; any other value gets Monitor |
| ThemeToggle.SunVisible | components/shared/custom-theme-toggle.tsx:73-80 | the nested conditional shows Sun exactly for "light" |
| ThemeToggle.MoonVisible | components/shared/custom-theme-toggle.tsx:83-88 | when Moon shows, neither Sun nor Monitor does |
| ThemeToggle.MonitorVisible | components/shared/custom-theme-toggle.tsx:91-96 | when Monitor shows, Sun does not |
| ThemeToggle.VisibleIcons | components/shared/custom-theme-toggle.tsx:73-96 | Sun shows exactly for "light", Moon exactly for "dark", Monitor exactly for "system"; at most one icon shows |
| ThemeToggle.IsActiveTheme | components/shared/custom-theme-toggle.tsx:111 | an option of the table can be active only when the theme is in the table |
| ThemeToggle.VisibleIconIsCurrent | components/shared/custom-theme-toggle.tsx:57-96 | a known theme shows exactly one icon, the one the table gives it. Any other value shows none, although the icon lookup then falls back to Monitor |
| ThemeToggle.MissingThemeIsSystem | components/shared/custom-theme-toggle.tsx:56-111 | with no theme, Monitor shows and the "system" option is active |
| ThemeToggle.ActiveThemes | components/shared/custom-theme-toggle.tsx:109-111 | at most one option is active. One is if and only if the theme is in the table, and it carries the icon of the current theme |
| ThemeToggle.Toggle.constructor | components/shared/custom-theme-toggle.tsx:16-17 | the toggle starts unmounted and closed, having called `setTheme` never |
| ThemeToggle.Toggle.Render | components/shared/custom-theme-toggle.tsx:46-135 | before mount only the placeholder is rendered. After mount, the icons shown are those of the effective theme and `aria-expanded` is the open flag. The menu of options is rendered only while open, with one flag per option marking the active one |
| ThemeToggle.Toggle.Mount | components/shared/custom-theme-toggle.tsx:20-22 | the mount effect sets `mounted` and changes nothing else |
| ThemeToggle.Toggle.ToggleOpen | components/shared/custom-theme-toggle.tsx:63 | the trigger flips `isOpen` and calls `setTheme` never |
| ThemeToggle.Toggle.MouseDown | components/shared/custom-theme-toggle.tsx:25-39 | after a press the menu is open if and only if it was open and the press was inside |
| ThemeToggle.Toggle.HandleThemeChange | components/shared/custom-theme-toggle.tsx:41-44 | `setTheme` is called once with the chosen value, and the menu is closed |
| ThemeToggle.Toggle.SelectOption | components/shared/custom-theme-toggle.tsx:116 | choosing an option calls `setTheme` with that option's value and closes the menu |
| ThemeToggle.PlaceholderIgnoresTheme | components/shared/custom-theme-toggle.tsx:46-54 | before mount the output does not depend on the theme |

## Left out

- Language-model and vector-store behaviour is not modelled. `ChatOpenAI`, LangChain's `pipe` and `StringOutputParser`, and `similaritySearch` ranking are foreign libraries. They are uninterpreted parameters, and only the calls made to them are modelled.
- Prompt wording is not modelled. The instruction paragraphs of `getInquiryPrompt` and `getQAPrompt` are abstract prose markers tagged with their language and step. The short human-message prefixes and the slots are modelled.
- Streaming and HTTP plumbing are not modelled: `req.json` (a body that is not JSON is the absent body), `NextResponse`, `LangChainAdapter.toDataStreamResponse`, `maxDuration`, and the contents of the stream. Logging with `console` is left out.
- The vector-store connection (`getPineconeClient`, `getVectorStore`) is a single outcome passed to `Post`. A failure to construct `ChatOpenAI` is not modelled.
- JSON values of the wrong type are not modelled. Examples are a non-string `content` or `locale`, or a `null` content (which the code treats as blank). Message contents and locales are strings.
- Strings are sequences of Unicode scalar values, not UTF-16 code units.
- The navbar's slider geometry, timers, and scroll and resize listeners are not modelled: pixel arithmetic on DOM measurements, and `setTimeout`. The element the slider measures is modelled.
- Dropdown.AfterMouseDown: a missing `dropdownRef.current` is not modelled. The element is rendered whenever the listener can be attached, so the case does not arise.
- ThemeToggle: `CurrentIcon` is modelled as a lookup and related to the visible icons. The component computes it but never renders it.
- actions/prepare.ts is not part of this model. It is a thin wrapper over document loading and embedding code that is not available here.
- components/theme-toggle.tsx, the chat components, and the purely presentational pages are not part of this model. The same holds for the translations and class names.
