# search-gpt context assembly, in Dafny

search-gpt is a command-line tool that answers a question by searching
Google, reading the top result and asking an OpenAI chat model to answer from
what it read. This project models the core of that tool, the function
`searchGPT` in `index.js`. One request does this:

- the first search result is the page to read, and its link is the citation
  printed to the user;
- the page's HTML becomes text through the `html-to-text` converter;
- the snippets of all the other results follow it, in rank order, each
  after a space, with every `"..."` replaced by a space;
- every line feed in the whole text becomes a space (carriage returns and
  Unicode line separators are left alone), then the text is trimmed and cut
  to its first 10,000 characters;
- `previousChat` is rebuilt as exactly three messages: a system message with
  today's date, an assistant message carrying the context, and a user
  message made of a fixed instruction followed by the question. That list is
  sent to the chat endpoint.

Files:

- `js_string.dfy`, module `JsString`: the JavaScript string built-ins the
  pipeline uses. `replaceAll` with a string pattern finds leftmost,
  non-overlapping matches. `trim`, `trimStart` and `trimEnd` use ECMAScript's
  WhiteSpace and LineTerminator code points. `substring` clamps its bounds and
  swaps them when they are reversed.
- `context.dfy`, module `Context`: the search item, the snippet `reduce` and
  a reference definition of its result, the `"..."` cleaning, the raw
  context, and the budget step (`Flatten`, `Trim`, `Truncate`, together
  `Finalize`).
- `chat.dfy`, module `Chat`: chat messages, the conversation of one request,
  and the class `Session`. Its field `previousChat` is reassigned and then
  grown by `SearchGPT`, as the module-level array is in `index.js`.

Some things are parameters of `SearchGPT`, because the model cannot see them:

- the Google search (`search`: question to result items);
- the page fetch (`fetch`: link to HTML);
- the converter (`convert`: HTML to text);
- the chat completion (`complete`: messages to reply);
- the date string (`today`).

The one assumption is about `search`: `SearchGPT` requires it to return at
least one result for the question, because the source reads `items[0]`
without a check. Nothing is assumed about the other functions, and every
property below holds whatever they return.

## Model

| member | source | states |
|---|---|---|
| `JsString.ReplaceAll` | index.js:80 | `replaceAll` with a string pattern replaces the leftmost non-overlapping matches, inserting a `$`-free replacement as it stands. Its contract gives the length for an empty pattern, which adds one copy of the replacement per position. `ReplaceAllLength`, `ReplaceCharAt` and `ReplaceAllAbsent` state its other properties. |
| `Context.FoldSnippets` | index.js:78-79 | The `reduce` only appends: its start text is a prefix of the result, which grows by one space plus the snippet for each page. `FoldIsSpaced` gives its exact value. |
| `Context.CleanSnippets` | index.js:80 | `replaceAll("...", " ")` on the snippet block never makes it longer. `CleanedHasNoEllipsis` and `CleanSnippetsSpec` state what it removes and that it is idempotent. |
| `Context.RawContext` | index.js:74-80 | The converted text of the first page is a prefix of the raw context. The raw context is at most one character per further result plus their snippets longer than that text. `RawContextSpec` gives its exact value. |
| `Context.AssembleContext` | index.js:67-91 | The context of a request is within 10,000 characters, has no line feed, and is a prefix of the trimmed raw context with its line feeds turned into spaces. It is equal to that text when the text fits. |
| `Chat.SystemPrompt` | index.js:56-59 | The system message is the fixed sentence opening, then the date string, then a full stop. |
| `Chat.Conversation` | index.js:55-103 | The conversation has exactly three messages, with the roles system, assistant, user in that order. The assistant message carries the context unchanged. `ConversationGrounded` adds the budget, the absence of line feeds and the user text. |
| `Context.FoldIsSpaced` | index.js:78-79 | The `reduce` from `""` over the remaining results yields its start text followed by `" " + snippet` for each result, in order (the reference block `Spaced`). |
| `Context.SpacedAppend` | index.js:78-79 | The snippet block respects rank order: the block of `a + b` is the block of `a` followed by the block of `b`. |
| `Context.SpacedLength` | index.js:78-79 | The length of the block is the total length of the snippets plus one space per result. |
| `Context.SnippetBlock` | index.js:67-79 | The fold from `""` over every result but the first, split off at index.js:67, is the reference block of `items[1..]`. `SnippetBlockSpec` adds that it is empty for one result and ignores the first item. |
| `Context.SnippetBlockExtend` | index.js:67-79 | One more result at the end of the response appends one space and its snippet to the block and leaves the earlier block as it was. |
| `Context.SnippetBlockSpec` | index.js:67-79 | The snippet block is the reference block of `items[1..]`. It is `""` when there is only one result. It does not change when the first item is replaced, so the first snippet is never part of it. |
| `Context.CleanedHasNoEllipsis` | index.js:80 | After the leftmost, non-overlapping replacement of `"..."` by `" "`, no `"..."` occurs anywhere in the cleaned block. |
| `Context.CleanSnippetsSpec` | index.js:80 | Cleaning never makes the block longer, and cleaning twice gives the same as cleaning once. |
| `Context.RawContextSpec` | index.js:67-80 | The text before flattening is `convert(fetch(items[0].link))` followed by the reference block of `items[1..]` with `"..."` replaced. The part after the page text holds no `"..."`. |
| `Context.Flatten` | index.js:89 | `replaceAll("\n", " ")` keeps the length and changes each line feed into a space and nothing else, so no line feed remains. |
| `Context.Truncate` | index.js:91 | `substring(0, 10000)` gives a prefix of at most 10,000 characters. It equals its input exactly when the input fits, and it is exactly 10,000 long otherwise. |
| `Context.Finalize` | index.js:88-91 | The context is at most 10,000 characters and has no line feed. It is a prefix of the trimmed text with its line feeds turned into spaces, and it does not start with whitespace. When the trimmed text fits, the context is that text and does not end with whitespace. Otherwise its length is exactly 10,000. |
| `Context.FinalizeIdempotent` | index.js:88-91 | Cutting the context again at 10,000 changes nothing. When no cut was needed, the whole flatten-trim-cut step gives back its own result. |
| `JsString.ReplaceAllLength` | index.js:80 | `replaceAll` with a replacement no longer than the pattern never lengthens the string. With one of equal length, the length stays the same. |
| `JsString.ReplaceCharAt` | index.js:89 | Replacing one character by another is a position-by-position substitution that keeps the length and leaves no occurrence of the replaced character. |
| `JsString.ReplaceAllAbsent` | index.js:80 | `replaceAll` of a pattern that does not occur returns the string unchanged. |
| `JsString.TrimStart` | index.js:90 | Gives the longest suffix that does not start with whitespace. Everything it removes is whitespace. |
| `JsString.TrimEnd` | index.js:90 | Gives the longest prefix that does not end with whitespace. Everything it removes is whitespace. |
| `JsString.Trim` | index.js:90 | `trim` never lengthens the string, and its result neither starts nor ends with whitespace. |
| `JsString.TrimSlice` | index.js:90 | The trimmed string is a slice `s[i..j]`, and everything outside the slice is whitespace. |
| `JsString.TrimEmpty` | index.js:90 | The trimmed string is empty exactly when the input is all whitespace. |
| `JsString.TrimAbsent` | index.js:90 | A character absent from the input is absent from the trimmed string. |
| `JsString.TrimTrimmed` | index.js:90 | A string with no whitespace at either end is its own trim. |
| `JsString.Substring` | index.js:91 | `substring` never lengthens the string. With in-range, ordered bounds it is the slice between them. |
| `JsString.SubstringPrefix` | index.js:91 | `substring(0, n)` is a hard prefix cut whose length is the smaller of `n` and the length of `s`. It is the identity on strings of at most `n` characters, and applying it twice gives the same as once. |
| `Chat.Question` | index.js:100-103 | The user message starts with the fixed instruction, and the rest of it is exactly the question. |
| `Chat.ConversationGrounded` | index.js:55-103 | A conversation built around a finalized context has three messages: system, assistant, user. The assistant's content is within the budget and has no line feed. The user's content is the instruction followed by the question. |
| `Chat.Session.constructor` | index.js:40 | `previousChat` starts empty. |
| `Chat.Session.SearchGPT` | index.js:52-112 | Afterwards `previousChat` is exactly the system, assistant and user messages built from the date, from the context of the first result's page plus the other results' snippets, and from the question. Nothing from earlier requests remains. The reply is the completion of exactly that list. The citation is the first result's link. |

## Left out

- The readline prompt loop and the recursive `startCli` (index.js:21-24, 42-50): terminal input.
- The check of the three environment variables and `process.exit(1)` (index.js:9-19): process start-up.
- The Google Custom Search request, the page `fetch` and the OpenAI chat request, including their JSON decoding (index.js:74, 115-147): network clients. They are the parameters `search`, `fetch` and `complete`, which always return a value. Their failures are not modelled, and each behaves differently in the source:
  - A failed page fetch or `text()` (index.js:74-75) has no `try`/`catch`. The rejection leaves `searchGPT` and is not caught by the callback at index.js:45-47, so it ends as an unhandled rejection.
  - A failed search returns `undefined` from its `catch` (index.js:123-125). Reading `searchResults.items` at index.js:67 then throws a `TypeError`.
  - A failed chat request returns `undefined` from its `catch` (index.js:144-146), and the source goes on and prints it at index.js:109.
- JsString.ReplaceAll: inserts the replacement as it stands. The `$` substitution patterns that JavaScript expands in a replacement string (`$$`, `$&`, `` $` ``, `$'`) are not modelled, so `ReplaceAllLength` is not a claim about replacements that use them. index.js uses none: both replacements are a single space (index.js:80, 89).
- The `html-to-text` configuration (index.js:26-37): a foreign library. It is the parameter `convert`.
- `new Date().toDateString()` (index.js:58): clock access. It is the parameter `today`.
- `chalk` styling, `cursorTo`/`clearLine` and the printing of the answer and the "Know more" link (index.js:53, 70-71, 107-110): terminal output. The printed link is the `citation` that `SearchGPT` returns.
- `await` sequencing: the model runs the steps in the same order, one after another.
- A response without `items`, or with an empty `items`: the source then crashes when it reads `items[0]`, so `SearchGPT` requires at least one result.
- A result without a `snippet`: the template literal would insert the text `undefined`. In the model every item has a snippet string.
- Character counting: JavaScript's `length` and `substring` count UTF-16 code units, while the model counts Dafny characters (Unicode scalar values). A character outside the Basic Multilingual Plane counts as two in the source and one here. The cut at 10,000 can therefore fall elsewhere, and the source can split a surrogate pair, which the model cannot.
- Context.Finalize: does not claim the context ends without whitespace when it was cut, because the source trims before it cuts. A cut just after a space leaves that space at the end. For the same reason the flatten-trim-cut step is stated idempotent only when no cut was needed.
- `"..."` in the page text: the source cleans only the snippet block (index.js:78-80). The converted page text can still hold `"..."`, and `RawContextSpec` states the absence only for the snippet part.
- `index.js` has no "no results" reply, no retry with later results when a fetch fails or times out, no following of links found in fetched pages, no token-based truncation and no fixed reply when the chat service fails. The model has none of these either.
