# Landing-page generator chat: a Dafny model of its decision logic

The application is a chat in which a user asks a language model for a
landing page. The model replies with an HTML page inside a fenced block.
The client shows that page in a preview frame, masks the block in the
transcript, and stores the transcript. This project models the parts of
the application that take decisions:

- **Artifact extraction and masking** (`artifact.dfy`, built on the string
  search of `js_strings.dfy`):
  - The code of a finished reply is the text between the leftmost
    ```` ```html ```` line and the first closing fence after it. An empty
    capture counts as no artifact.
  - The transcript replaces every such block, left to right, with a fixed
    placeholder.
- **Error notifications** (`chat_errors.dfy`): an ordered table of
  substring tests turns an error message into a notification title and
  text.
- **Client turn state** (`chat_interface.dfy`): a `Session` class holds the
  tab, the generated code, the loading flag and the preview frame, and
  records the notifications, save requests and exports it produces.
- **Generation endpoint** (`chat_route.dfy`): request shape check, provider
  choice by configured key, the error text of the stream, and the mapping
  of a thrown error to a status code.
- **History endpoint** (`chat_save.dfy`): a `ChatHistoryTable` class. It
  validates the request, then updates the user's row if the lookup finds
  one and inserts a row otherwise.
- **Sign-up endpoint** (`signup.dfy`): pure validation, then an `AuthStore`
  class holding the set of registered e-mails and the `profiles` table. It
  rejects duplicate e-mails, creates the account, and tolerates a failed
  profile insert.

JSON request bodies, JavaScript truthiness and property access are in
`js_values.dfy`. `Option` is in `wrappers.dfy`.

The database, the auth service, the model providers and the browser are
not modelled. Their answers come in as method parameters:
- whether a lookup or a listing failed;
- the error a write returned;
- what `createUser` returned;
- whether the browser allowed a pop-up;
- the current time.

Points worth knowing about the code:
- The client sends a save request only when the finished reply holds an
  artifact; a reply without one is never saved.
- The client has no "busy" rejection, no cancellation and no streaming
  timeout. While a reply is loading, the input and the send button are
  disabled; `SubmitEnabled` models that.
- The history endpoint does not guarantee one row per user. See Findings.

## Model

| member | source | states |
|---|---|---|
| JsStrings.IndexOf | components/chat-interface.tsx:61-71 | the search behind `includes`: the first occurrence at or after the start index, or none at all |
| JsStrings.Includes | components/chat-interface.tsx:61-71 | `includes` holds exactly when the pattern occurs somewhere |
| JsStrings.IncludesInfix | components/chat-interface.tsx:61 | a string with the pattern written inside it includes it |
| JsStrings.IndexOfExtend | components/chat-interface.tsx:83 | appending text cannot change a search that already found its pattern |
| JsStrings.TrimStart | components/chat-interface.tsx:307 | the removed prefix is all white space, and the result is empty exactly when the input is all white space |
| JsStrings.TrimEnd | components/chat-interface.tsx:307 | the removed suffix is all white space, and the result is empty exactly when the input is all white space |
| JsStrings.Trim | components/chat-interface.tsx:307 | `trim()` gives "" exactly when every character is white space; otherwise its first and last characters are not white space |
| JsStrings.TrimIsWindow | components/chat-interface.tsx:307 | `trim()` is a contiguous slice of the input with only white space before and after it |
| JsValues.Truthy | app/api/chat/save/route.ts:10 | a value is falsy exactly when it is undefined, null, false, 0 or the empty string |
| JsStrings.Utf16Length | app/api/auth/signup/route.ts:18 | `length` lies between the number of code points and twice that, and equals it exactly when every code point is in the BMP |
| JsStrings.Utf16LengthOfChar | app/api/auth/signup/route.ts:18 | one code point counts two code units above U+FFFF and one otherwise |
| JsStrings.Utf16LengthConcat | app/api/auth/signup/route.ts:18 | the code units of a concatenation are the sum of those of its parts; with `Utf16LengthOfChar` this fixes `length` on every string |
| Artifact.Locate | components/chat-interface.tsx:83 | the match is absent exactly when there is no opening fence followed by a closing fence; otherwise it is the leftmost opening fence and the first closing fence after it |
| Artifact.Extract | components/chat-interface.tsx:83-84 | an artifact is non-empty, appears in the message between the two fences, and exists only when a complete block does |
| Artifact.LocateBlock | components/chat-interface.tsx:83 | in a message laid out as text, fence, code, fence, text, the match is exactly that block, whatever follows it |
| Artifact.ExtractFirstBlock | components/chat-interface.tsx:83-85 | round trip: the first block's non-empty code comes back byte for byte, whatever follows it, later blocks included |
| Artifact.ExtractEmptyCapture | components/chat-interface.tsx:84 | a first block with nothing between its fences gives no artifact |
| Artifact.ExtractIgnoresLaterText | components/chat-interface.tsx:83 | first match wins: text appended after a complete block changes neither the match nor the artifact |
| Artifact.Mask | components/chat-interface.tsx:251 | the global replace: a message without a complete block is kept, and the text before the first block is kept as it is |
| Artifact.PlaceholderHasNoBacktick | components/chat-interface.tsx:251 | the placeholder contains no backtick, so no fence can start inside it |
| Artifact.NoBlockAround | components/chat-interface.tsx:251 | text without an opening fence, then the placeholder, then text without a block, has no block |
| Artifact.MaskRemovesEveryBlock | components/chat-interface.tsx:251 | the masked transcript holds no complete fenced block |
| Artifact.MaskIdempotent | components/chat-interface.tsx:251 | masking a masked message changes nothing |
| Artifact.MaskWithoutBlock | components/chat-interface.tsx:251 | a message without a complete block is shown unchanged |
| Artifact.MaskBlock | components/chat-interface.tsx:251 | the first block becomes the placeholder, the text before it is kept, and masking continues after its closing fence |
| ChatErrors.Classify | components/chat-interface.tsx:58-73 | the quota title iff "quota" or "billing" occurs; otherwise the key title iff "API key" occurs; otherwise the title "Error"; the default text iff none of the five words occurs |
| ChatErrors.QuotaWins | components/chat-interface.tsx:61-64 | "quota" or "billing" anywhere gives the quota notification, whatever else the message says |
| ChatErrors.ApiKeyBeatsRateLimitAndNetwork | components/chat-interface.tsx:65-68 | short of a quota word, "API key" gives the key notification even when "rate limit" or "network" also occurs |
| ChatErrors.RateLimitBeatsNetwork | components/chat-interface.tsx:69-70 | "rate limit" is tested before "network" |
| ChatErrors.NetworkMentioned | components/chat-interface.tsx:71-72 | "network" alone among the words gives the network text |
| ChatInterface.SubmitEnabled | components/chat-interface.tsx:307 | sending is enabled exactly when nothing is loading and the input has a character that is not white space |
| ChatInterface.Session.constructor | components/chat-interface.tsx:23-25 | a session starts on the chat tab with no code, nothing loading and no preview |
| ChatInterface.Session.UpdatePreview | components/chat-interface.tsx:29-49 | empty code, or a frame that is not on screen, leaves the preview as it was; otherwise the frame shows the code |
| ChatInterface.Session.RefreshFrame | components/chat-interface.tsx:114-121 | after a change of tab or code, the frame shows the current code exactly when the preview tab is open and there is code |
| ChatInterface.Session.SelectTab | components/chat-interface.tsx:23 | only the tab and the preview change, and the preview stays consistent with the tab and the code |
| ChatInterface.Session.Submit | components/chat-interface.tsx:109-112 | the form is sent only when sending is enabled, and sending turns loading on; nothing else changes |
| ChatInterface.Session.OnError | components/chat-interface.tsx:54-80 | loading goes off and one classified notification is added; the code, tab, preview and saves are untouched |
| ChatInterface.Session.OnFinish | components/chat-interface.tsx:81-105 | loading goes off; with an artifact, the code becomes it, the preview tab shows it, and one save request carries the earlier messages followed by the finished one; without an artifact nothing else changes and nothing is saved |
| ChatInterface.Session.DownloadCode | components/chat-interface.tsx:123-140 | without code nothing happens; otherwise the code is exported as landing-page.html of type text/html, with its notification |
| ChatInterface.Session.CopyCode | components/chat-interface.tsx:142-150 | without code nothing happens; otherwise the code goes to the clipboard, with its notification |
| ChatInterface.Session.OpenInNewTab | components/chat-interface.tsx:152-178 | without code nothing happens; otherwise the code opens in a new window, or a blocked pop-up gives only the blocked notification |
| ChatRoute.ErrorMessage | app/api/chat/route.ts:8-19 | null and undefined give "Unknown error occurred", a string gives itself, an Error gives its message, anything else gives its JSON text |
| ChatRoute.SelectProvider | app/api/chat/route.ts:32-49 | Groq's model when its key is set; otherwise gpt-4o when the OpenAI key is set; no provider exactly when neither key is set |
| ChatRoute.Caught | app/api/chat/route.ts:73-88 | 429 exactly for an Error whose message mentions quota or billing, with the message after the fixed prefix; any other Error gives 500 "Error: " + message; a non-Error gives 500 with the fixed text |
| ChatRoute.Post | app/api/chat/route.ts:21-88 | an unreadable body goes to the catch block; a non-array `messages` gives 400; no key gives 500; with a readable array and a selected provider, the stream starts on that provider's model with the request's messages, or a setup error goes to the catch block; a stream starts in no other case |
| ChatRoute.InvalidRequestIgnoresCredentials | app/api/chat/route.ts:25-27 | a request without a message array gets 400 whatever keys are configured and whatever the provider would throw |
| ChatRoute.GroqKeyTakesPrecedence | app/api/chat/route.ts:32-41 | with the Groq key set, the OpenAI key makes no difference and the stream uses Groq's model |
| ChatRoute.QuotaAnswerIsClassifiedAsQuota | app/api/chat/route.ts:78-82 | a 429 text still contains "quota", so a client showing it names it a quota error |
| ChatSave.FirstRowOf | app/api/chat/save/route.ts:15-17 | the first row of the user, with no earlier row of that user, or none exactly when the user has no row |
| ChatSave.UpdateById | app/api/chat/save/route.ts:19-22 | every row with the id gets the messages and the time stamp; every other row and the length stay the same |
| ChatSave.Inserted | app/api/chat/save/route.ts:29-34 | the insert keeps every existing row and appends exactly the row with the new id, the user, the messages and the default time stamp |
| ChatSave.Upserted | app/api/chat/save/route.ts:17-39 | a save adds a row exactly when the user had none, never changes a row's user or id, and leaves the user with a row |
| ChatSave.UpsertOverwritesFirstRow | app/api/chat/save/route.ts:17-22 | when the user has a row, the first one takes the messages and the time stamp, and no row is added or changed besides it |
| ChatSave.UpsertInsertsOneRow | app/api/chat/save/route.ts:27-34 | when the user has no row, exactly one row is appended, holding the user and the messages |
| ChatSave.UpsertLeavesOtherUsers | app/api/chat/save/route.ts:22 | rows of other users are never modified, because the update is filtered by the found row's id |
| ChatSave.UpsertKeepsOneRowPerUser | app/api/chat/save/route.ts:15-39 | a table with one row per user and distinct ids keeps both, and the user's row holds the messages |
| ChatSave.UpsertExistingUser | app/api/chat/save/route.ts:17-26 | a save for a user who has a row adds no row, keeps one row per user, and every row of that user holds the new messages |
| ChatSave.SaveTwiceKeepsLast | app/api/chat/save/route.ts:15-39 | saving twice for a user adds no row the second time, and the user's only row holds the second transcript |
| ChatSave.FailedLookupDuplicates | app/api/chat/save/route.ts:15-17 | inserting for a user who already has a row breaks one row per user |
| ChatSave.ChatHistoryTable.constructor | app/api/chat/save/route.ts:4 | the table starts empty |
| ChatSave.ChatHistoryTable.Insert | app/api/chat/save/route.ts:29-34 | appends one row with a fresh id and keeps ids distinct |
| ChatSave.ChatHistoryTable.Save | app/api/chat/save/route.ts:6-46 | an unreadable body gives 500; a falsy field gives 400; a write error gives 400 with its message; on any failure the table is unchanged; on success the answer is 200 and the table is upserted, or is given an insert when the lookup failed |
| ChatSave.ChatHistoryTable.SaveChecked | app/api/chat/save/route.ts:15-17 | the save with the lookup error reported: every success is an upsert, so one row per user is preserved |
| Signup.Validate | app/api/auth/signup/route.ts:14-20 | "Missing required fields" exactly when a field is falsy; otherwise the password message exactly when the password is shorter than 6; no other refusal |
| Signup.ShortPassword | app/api/auth/signup/route.ts:18 | only strings, arrays and objects can be short; a string is short exactly when it has fewer than 6 UTF-16 code units, so 6 or more characters are never short and a BMP string is short exactly when it has fewer than 6 characters; an array is short exactly when it has fewer than 6 items |
| Signup.Registered | app/api/auth/signup/route.ts:30 | the e-mail is known exactly when it is a string in the set of accounts |
| Signup.PasswordLengthBoundary | app/api/auth/signup/route.ts:18-20 | a non-empty string password passes exactly when it has 6 UTF-16 code units or more; so 6 or more characters pass, length 6 included, and a shorter one of BMP characters is refused |
| Signup.AstralPasswordLength | app/api/auth/signup/route.ts:18-20 | a code point above U+FFFF counts twice: three such characters pass the length check, two are refused |
| Signup.Outcome | app/api/auth/signup/route.ts:9-95 | an unreadable body gives 500; an invalid request gets its validation answer; a failed listing gives 500; a known e-mail gives 409; a refusal gives 400 with its message; no user gives 400 "Failed to create user"; 201 exactly when the request is valid, the listing works, the e-mail is new and the account is created, with the created id and e-mail and the given name; other answers carry no user |
| Signup.InvalidNeverConsultsStore | app/api/auth/signup/route.ts:14-23 | an invalid request gets the same 400 whatever the accounts, the listing and `createUser` would give |
| Signup.KnownEmailConflicts | app/api/auth/signup/route.ts:30-37 | a valid request for a registered e-mail gets 409, whatever `createUser` would answer |
| Signup.ListFailureIsServerError | app/api/auth/signup/route.ts:23-28 | a failed listing of accounts gives 500 "Error checking user existence" |
| Signup.AuthStore.constructor | app/api/auth/signup/route.ts:4-7 | no accounts and no profiles |
| Signup.AuthStore.SignUp | app/api/auth/signup/route.ts:9-95 | the answer is `Outcome`; only a 201 changes the store: the created e-mail joins the accounts, and a profile row is appended unless its insert fails, which does not change the answer |
| Signup.SecondSignUpConflicts | app/api/auth/signup/route.ts:30-37 | after a successful sign-up with an e-mail, a second valid request with that e-mail gets 409 |

## Left out

- Rendering, styling, animations, scrolling, logging and the sign-out
  button are not modelled; they decide nothing.
- The `setTimeout` delays before the tab switch and the preview refresh
  (components/chat-interface.tsx:88-90, :116-119) are collapsed. Each
  handler leaves the state those timers settle on, so a state in which
  the timer is still pending is not modelled.
- The iframe document calls, Blob and object URLs, the clipboard and
  `window.open` are browser APIs. The model records what they would
  receive (`Export`), and `preview` stands for the frame's document.
- The chat hook's internals are not modelled: the message list, the
  input, `isLoading` and the streaming transport. They are parameters.
- The save request is fire-and-forget. Its completion, its failure and
  its ordering against later turns are not modelled; `saves` records what
  is sent.
- The notification `variant` is not modelled.
- ChatRoute.ErrorMessage: `JSON.stringify` is a parameter. It is not
  modelled, nor is its throwing on cyclic values.
- The provider SDKs, the instruction text and the stream are not
  modelled. `setupError` stands for whatever the SDK throws while the
  stream is set up. `maxDuration` is a platform setting.
- A JavaScript string is a sequence of code points. UTF-16 code-unit
  indexing and lone surrogates are not modelled; `Utf16Length` covers
  `length`, the one place where the code units matter.
- A JSON number is a `real`, so NaN is not modelled; a NaN `messages`
  field is falsy in the source as well.
- Signup.Validate: a non-number `length` property of an object password
  is taken as not short. The source would coerce it, e.g. the string
  "5".
- Signup.AuthStore.SignUp: listing the accounts reads one page in the
  source. The model sees every account, so duplicates beyond the first
  page are not modelled.
- Signup.AuthStore.SignUp: the account is added with the e-mail the auth
  service reports. That this is the requested e-mail is the service's
  business and is not modelled.
- ChatSave.ChatHistoryTable.Save: a freshly inserted row's `updated_at`
  is left to the column default (`None`).
- ChatSave.ChatHistoryTable.Save: database constraints are not
  modelled, for example a uniqueness constraint on `user_id`. Such a
  constraint would turn the duplicate insert of the finding below into a
  write error.
- ChatSave.FirstRowOf: the lookup has no ordering. The model takes the
  first row in table order. With one row per user this makes no
  difference.

## Findings

| source | as written | input that shows it | evidently intended | confidence | as-written member | corrected member |
|---|---|---|---|---|---|---|
| app/api/chat/save/route.ts:15-17 | the lookup's error is discarded, and a failed lookup reads as "no row", so the handler inserts | a user who already has a row, and a lookup that fails once: a second row for that user is inserted and 200 is answered | one row per user, the upsert the handler describes; a failed lookup should be reported like a failed write | medium (not executed; depends on whether the table has a uniqueness constraint on `user_id`) | ChatSave.FailedLookupDuplicates | ChatSave.ChatHistoryTable.SaveChecked |
