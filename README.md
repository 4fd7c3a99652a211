# A verified model of the pilot4 site's client logic and admin notification

pilot4 is the AltruisticX site. Visitors chat with an AI assistant, browse a
board of experiments, pick a pilot-proposal template that pre-fills the
contact form, and (as admins) enable TOTP multi-factor authentication. A
Supabase edge function e-mails the admins whenever a pilot inquiry is
submitted. This project models in Dafny the parts of that code that make
decisions, and proves what they guarantee:

- `ChatStream` (`chat_stream.dfy`): the chat widget's `streamChat`. It covers:
  - the read loop over the streamed completion;
  - the line buffer that carries an unterminated tail between reads;
  - how each line is classified (comment, blank, not `data: `, `[DONE]`, payload);
  - how deltas are appended to the assistant message and each rendering passed to `setMessages`;
  - the apology shown on any failure.

  `StreamConsumer` is a class whose `OnChunk` method is one iteration of the read loop. `StreamChat` drives it over the chunks of a reply.
- `Experiments` (`experiments.dfy`): `useExperiments`. It covers the query clauses built from the filters, through an imperative `if` chain, and the client-side tag filter on the rows returned.
- `ExperimentBoard` (`experiment_board.dfy`): the experiment board. It covers:
  - the "all"/empty to `undefined` mapping of its inputs;
  - the `allTags` memo (nested loops into a set, then a sort);
  - the "+N more" tag strip;
  - what each card shows: four tags, two metrics, underscores turned into spaces.
- `Proposals` (`proposals.dfy`): choosing a proposal template. It covers the description text and the role guessed from the audience, checked on the shipped templates.
- `MfaSetup` (`mfa_setup.dfy`): the MFA card. It covers:
  - the six-digit code sanitiser;
  - the submit guard and the button state;
  - the "has a verified TOTP factor" test;
  - the `MfaCard` class, whose handlers update the component state.
- `NotifyAdmin` (`notify_admin.dfy`): the `notify-admin-inquiry` handler. It covers its early exits, the selection of recipient addresses, one send per recipient, and the count of sent and failed e-mails.
- `JsStrings` (`js_strings.dfy`) and `Wrappers` (`wrappers.dfy`): the JavaScript string operations the code relies on, and `Option`/`Result`.

Outside services are inputs of the model:
- the `fetch` reply and its chunks;
- `JSON.parse` followed by the `choices[0].delta.content` lookup, as an abstract parser;
- the Supabase query results and `listFactors`/`enroll`/`challengeAndVerify`;
- the `user_roles` and `listUsers` lookups;
- how each e-mail send settles.

## Model

| member | source | states |
|---|---|---|
| JsStrings.TrimSpec | src/components/AIChat.tsx:63 | `trim` leaves no whitespace at either end, and yields "" exactly when the line is all whitespace (the blank-line test) |
| JsStrings.ContainsIff | src/components/sections/ProposalsSection.tsx:12-13 | `includes(sub)` holds exactly when `sub` occurs at some offset |
| JsStrings.JoinSplit | src/components/AIChat.tsx:58 | joining the pieces of `split('\n')` with '\n' gives back the text |
| JsStrings.SplitJoin | src/components/AIChat.tsx:58 | splitting pieces joined by '\n', none holding '\n', gives back the pieces |
| JsStrings.LessTotal | src/components/sections/ExperimentBoard.tsx:62 | the default sort order compares any two distinct strings |
| JsStrings.LessTransitive | src/components/sections/ExperimentBoard.tsx:62 | the default sort order is transitive |
| ChatStream.LinesCover | src/components/AIChat.tsx:57-59 | the received text is its complete lines, each ended by '\n', then the pending tail; none of them holds '\n' |
| ChatStream.LinesUnique | src/components/AIChat.tsx:57-59 | lines and a tail free of '\n' are recovered from the text they make up |
| ChatStream.LinesAppend | src/components/AIChat.tsx:57-59 | the lines of `a + b` are those of `a` followed by those completed when `b` is appended to `a`'s tail; the final tail is the same |
| ChatStream.ReadStep | src/components/AIChat.tsx:57-59 | splitting the old buffer plus a chunk yields the lines that chunk completes and the new buffer, continuing the framing of all text received |
| ChatStream.UnterminatedTailIgnored | src/components/AIChat.tsx:55-59 | a final piece without '\n' completes no line and only lengthens the buffer |
| ChatStream.StripCR | src/components/AIChat.tsx:62 | at most one trailing '\r' is removed, and one is removed exactly when the line ends with '\r' |
| ChatStream.ClassifyRules | src/components/AIChat.tsx:63-67 | comment iff starts with ':'; blank iff otherwise all whitespace; payload or sentinel iff starts with "data: "; the payload is the rest after six characters, trimmed; "[DONE]" is set apart |
| ChatStream.ContentOnlyFromData | src/components/AIChat.tsx:64-75 | a line contributes text only as the parsed content of a `data: ` payload, and then contributes exactly that content |
| ChatStream.IgnoredLines | src/components/AIChat.tsx:63-64 | comment, blank and non-`data: ` lines contribute nothing, whatever the parser |
| ChatStream.DroppedPayloads | src/components/AIChat.tsx:69-78 | a payload that fails to parse, or has no content, contributes nothing |
| ChatStream.SentinelIsNoOp | src/components/AIChat.tsx:67 | "[DONE]" is a no-op: the lines after it are still read and the message is as if it were absent |
| ChatStream.ParseFailureSkipped | src/components/AIChat.tsx:69-78 | a bad payload between two runs of lines leaves the message as the two runs make it on their own |
| ChatStream.ConcatAppend | src/components/AIChat.tsx:57 | concatenation distributes over appending chunk sequences |
| ChatStream.ContentsAppend | src/components/AIChat.tsx:61-79 | the contents of two runs of lines are the two lists of contents, in order |
| ChatStream.AssembledStep | src/components/AIChat.tsx:71-74 | one more line appends its content, and adds a rendering exactly when that content is non-empty |
| ChatStream.AssembleAppend | src/components/AIChat.tsx:73 | the message from two runs of lines is the two messages concatenated |
| ChatStream.AssemblePrefix | src/components/AIChat.tsx:73 | each assistant message is a prefix of every later one |
| ChatStream.SnapshotsLast | src/components/AIChat.tsx:72-74 | something is rendered exactly when the message is non-empty, and the last rendering is the whole message |
| ChatStream.SnapshotsGrow | src/components/AIChat.tsx:72-74 | each rendering passed to `setMessages` is a proper prefix of the next |
| ChatStream.StreamConsumer.constructor | src/components/AIChat.tsx:50-51 | empty buffer and message, nothing received or rendered, invariant established |
| ChatStream.StreamConsumer.ProcessLine | src/components/AIChat.tsx:61-78 | the loop body appends the line's content to the message, and a rendering when it is non-empty |
| ChatStream.StreamConsumer.ProcessLines | src/components/AIChat.tsx:61-79 | the `for` loop processes the completed lines in order |
| ChatStream.StreamConsumer.OnChunk | src/components/AIChat.tsx:53-80 | after a chunk: the buffer is the text after the last '\n' of old buffer plus chunk; the lines processed are exactly the pieces before it; the message grows by their contents; the framing invariant is kept |
| ChatStream.StreamChat | src/components/AIChat.tsx:26-90 | shown messages: after `done`, the history, the user's message and, if non-empty, the message assembled from the complete lines of the whole body, which depends only on the text and not on the chunking; on any failure, the apology instead |
| ChatStream.UnterminatedLastChunkIgnored | src/components/AIChat.tsx:53-59 | a last chunk without '\n' adds nothing to the messages shown |
| ChatStream.DataLine | src/components/AIChat.tsx:64-67 | `data: ` followed by a trimmed payload other than "[DONE]" carries that payload |
| ChatStream.SentinelLine | src/components/AIChat.tsx:67 | `data: [DONE]` is the sentinel |
| Experiments.BuildQuery | src/hooks/useExperiments.ts:18-36 | the `if` chain builds the clauses of `Query`: domain, status, search, then the ordering |
| Experiments.QuerySpec | src/hooks/useExperiments.ts:21-36 | equality on domain or status exactly when it is set, non-empty and not "all", on that value alone; the title/hypothesis match exactly when the search is non-empty; no other filter; last clause orders by `last_updated` descending |
| Experiments.TagFilterIdentity | src/hooks/useExperiments.ts:43-44 | without tags or with an empty tag list the rows are returned as fetched, null data as none |
| Experiments.KeepTaggedSound | src/hooks/useExperiments.ts:45-47 | every row kept comes from the fetched rows and carries a wanted tag |
| Experiments.KeepTaggedComplete | src/hooks/useExperiments.ts:45-47 | every fetched row carrying a wanted tag is kept |
| Experiments.KeepTaggedOrder | src/hooks/useExperiments.ts:45-47 | the rows kept are a subsequence of the fetched rows |
| Experiments.TagFilterSpec | src/hooks/useExperiments.ts:43-48 | with a non-empty tag list: exactly the rows with a wanted tag, in server order, never a row with null tags |
| Experiments.QueryResultSpec | src/hooks/useExperiments.ts:38-40 | the query rejects exactly when the server returns an error, with that error |
| ExperimentBoard.BoardQueryFilters | src/components/sections/ExperimentBoard.tsx:49-53 | the board filters on a select's value exactly when it is neither "all" nor empty, searches exactly when the box is non-empty, and never filters tags |
| ExperimentBoard.TagUnionMembers | src/components/sections/ExperimentBoard.tsx:58-61 | a tag is collected exactly when some experiment with tags carries it |
| ExperimentBoard.CollectTags | src/components/sections/ExperimentBoard.tsx:58-61 | the nested loops collect exactly the union of all experiments' tags |
| ExperimentBoard.InsertSorted | src/components/sections/ExperimentBoard.tsx:62 | inserting a new tag keeps the list strictly sorted, with the tag added |
| ExperimentBoard.SortTags | src/components/sections/ExperimentBoard.tsx:62 | the set's elements, each once, in ascending order |
| ExperimentBoard.AllTags | src/components/sections/ExperimentBoard.tsx:56-63 | no tags while experiments are undefined; otherwise every tag of any experiment, strictly ascending |
| ExperimentBoard.SortedDistinct | src/components/sections/ExperimentBoard.tsx:58-62 | no tag appears twice in `allTags` |
| ExperimentBoard.SortedUnique | src/components/sections/ExperimentBoard.tsx:62 | two strictly sorted lists with the same tags are equal, so `allTags` does not depend on collection order |
| ExperimentBoard.TagStripSpec | src/components/sections/ExperimentBoard.tsx:122-131 | no strip without tags; the first min(8, length) tags shown; "+N more" exactly when more than eight, with N = length - 8 |
| ExperimentBoard.ReplaceUnderscoresSpec | src/components/sections/ExperimentBoard.tsx:167 | every '_' becomes a space, nothing else changes, no '_' remains |
| ExperimentBoard.ReplaceUnderscoresIdempotent | src/components/sections/ExperimentBoard.tsx:167 | replacing twice is replacing once |
| ExperimentBoard.CardSpec | src/components/sections/ExperimentBoard.tsx:155-193 | a card shows the first tags (at most four), the first metric entries (at most two), each key with '_' replaced by spaces and its value kept, and the domain with '_' replaced by spaces; null tags or metrics show nothing |
| Proposals.RoleRules | src/components/sections/ProposalsSection.tsx:12-13 | "Program Director" iff "Director" occurs in the audience; else "Program Manager" iff "Manager" occurs; else "Other" |
| Proposals.TemplatePrefillSpec | src/components/sections/ProposalsSection.tsx:10-14 | only role and description are set; the role is the one the audience gives; the description is exactly the summary, "\n\nOutcome: " and the outcome (prefix, separator at its offset, suffix, and total length) |
| Proposals.DirectorsRole | src/lib/data/proposals.ts:31 | the "Coalitions & Program Directors" template asks for a program director |
| Proposals.ManagersRole | src/lib/data/proposals.ts:55 | the "Teachers & Program Managers" template asks for a program manager |
| MfaSetup.DigitsSpec | src/components/sections/MFASetup.tsx:162 | removing non-digits leaves only digits, every digit of the input, and nothing longer |
| MfaSetup.DigitsOne | src/components/sections/MFASetup.tsx:162 | `replace(/\D/g, '')` on one character keeps a digit and drops any other character |
| MfaSetup.DigitsAppend | src/components/sections/MFASetup.tsx:162 | the digits of a concatenation are the digits of each part, concatenated; with the one-character rule this keeps order and repeated digits |
| MfaSetup.SanitizeSpec | src/components/sections/MFASetup.tsx:162 | the sanitised code is digits only, at most six long, the start of the input's digits, and six long exactly when the input has six digits or more |
| MfaSetup.SanitizeIdempotent | src/components/sections/MFASetup.tsx:162 | sanitising twice gives the same code |
| MfaSetup.GuardSpec | src/components/sections/MFASetup.tsx:58-61 | the guard lets a code through exactly when it is six long; an enabled button never meets the guard; when not verifying, disabled exactly when the guard would refuse |
| MfaSetup.GuardOnInput | src/components/sections/MFASetup.tsx:58-61 | the guard passes the sanitised code exactly when the value `onChange` receives holds six digits or more |
| MfaSetup.MfaEnabledSpec | src/components/sections/MFASetup.tsx:29-30 | MFA is reported enabled exactly when the TOTP list holds a factor with status "verified" |
| MfaSetup.MfaCard.constructor | src/components/sections/MFASetup.tsx:13-18 | the initial state: disabled, nothing enrolled, empty code |
| MfaSetup.MfaCard.EditCode | src/components/sections/MFASetup.tsx:162 | the code field holds the sanitised form of the value `onChange` receives; nothing else changes |
| MfaSetup.MfaCard.CheckStatus | src/components/sections/MFASetup.tsx:24-34 | on success the enabled flag follows the factor list; an error leaves the state as it was |
| MfaSetup.MfaCard.Enroll | src/components/sections/MFASetup.tsx:36-55 | on success the QR code and secret are set; on error the message or "Failed to enroll MFA"; the busy flag is cleared either way |
| MfaSetup.MfaCard.VerifyMfa | src/components/sections/MFASetup.tsx:57-91 | a code not six long is refused before any call; otherwise the first factor is verified with the code; on success MFA is enabled and QR code, secret and code are cleared; on failure the state is unchanged; `isVerifying` is cleared |
| NotifyAdmin.UserIdsSpec | supabase/functions/notify-admin-inquiry/index.ts:69 | the ids are the roles' user ids, position by position |
| NotifyAdmin.WithIdsSpec | supabase/functions/notify-admin-inquiry/index.ts:78 | exactly the users whose id is among the admin ids |
| NotifyAdmin.PresentSpec | supabase/functions/notify-admin-inquiry/index.ts:80 | exactly the addresses present and non-empty |
| NotifyAdmin.AdminEmailsSound | supabase/functions/notify-admin-inquiry/index.ts:77-80 | every recipient is a non-empty address of a listed user holding the admin role |
| NotifyAdmin.AdminEmailsComplete | supabase/functions/notify-admin-inquiry/index.ts:77-80 | every non-empty address of a listed admin user is a recipient |
| NotifyAdmin.AdminEmailsSpec | supabase/functions/notify-admin-inquiry/index.ts:69-80 | the recipients are exactly those addresses, no more of them than users |
| NotifyAdmin.CountSplit | supabase/functions/notify-admin-inquiry/index.ts:134-135 | sent plus failed is the number of sends |
| NotifyAdmin.NoneFailed | supabase/functions/notify-admin-inquiry/index.ts:135 | nothing failed exactly when every send was fulfilled |
| NotifyAdmin.SendStepsSpec | supabase/functions/notify-admin-inquiry/index.ts:96 | one send per recipient, in order |
| NotifyAdmin.Handle | supabase/functions/notify-admin-inquiry/index.ts:26-169 | OPTIONS is answered at once, before the payload is read; each failing lookup gives 500 with its message; no admin role, or no admin address, gives 200 with its message and no send; with recipients but no `record` in the payload, 500 before any send; otherwise one send per recipient and 200 with the sent and failed counts, which add up to the sends |

## Left out

- The `TextDecoder` is not modelled: chunks are already-decoded text, so a multi-byte character split across reads is not modelled.
- `JSON.parse` and the `choices?.[0]?.delta?.content` lookup are one abstract parser. A non-string truthy content (a number, an object) is not modelled; it would be appended through JavaScript's string conversion.
- `fetch`, `reader.read()` and the Supabase and Resend clients are not called. Their outcomes are parameters. `getReader` and the `fetch` request body are not modelled.
- React state and rendering are represented only by the values handed to the setters, which are the renderings in `StreamConsumer.updates` and the returned message list. `setIsLoading`, scrolling, toasts' display and the `useEffect` that runs `checkMFAStatus` on mount are not modelled.
- The server-side meaning of `.eq`, `.or` with `ilike` patterns and `.order` is not modelled; the model states which clauses are sent. How a search containing `,` or `%` would be read by PostgREST is likewise not modelled.
- `Object.entries` enumerates integer-like keys first. The model takes the metrics' entries in a given order and does not reorder them.
- The status label lookup `statusLabels[exp.status]` at src/components/sections/ExperimentBoard.tsx:163-164 is plain rendering of a table, so it is not modelled.
- JsStrings.Less: `Array.prototype.sort` compares UTF-16 code units. The model compares characters, which differs from it only for characters outside the Basic Multilingual Plane.
- `Promise.allSettled` runs the sends concurrently. The model settles them in recipient order; only how each settles and the counts matter.
- The e-mail subject and HTML, the `resendApiKey` header, CORS headers and `toLocaleString` are not modelled. The response body is modelled, including the constant `message` of the processed answer; headers are not.
- NotifyAdmin.Handle: a body that is not JSON and a JSON `null` body (whose destructuring throws) are both the payload error input. A body without a `record` is modelled: it fails with 500 before the first send once there are recipients. A body whose `record` is `null` is not modelled: it fails at the same point, but with the message for reading `name` of null instead of undefined. The exact wording of the runtime TypeError messages is the V8 wording.
- MfaSetup.MfaCard.EditCode: the input's `maxLength={6}` (src/components/sections/MFASetup.tsx:163) is not modelled. The browser cuts typed or pasted text to six characters before `onChange` runs, so the `input` of EditCode and GuardOnInput is that already-cut field value, not what was typed; a pasted "123 456" arrives as "123 45".
- MfaSetup.MfaCard.VerifyMfa: a rejected `listFactors` call (thrown rather than returned as `error`) is not modelled. A returned error is modelled as a missing list, which gives "No MFA enrollment found".
- `MfaSetup.MfaCard.Enroll`: an `enroll` result with neither error nor data is not modelled. In the source that path throws a TypeError whose message is toasted.
- The contact form's schema check, the e-mail domain guard and the prefill context's scrolling are not part of this model, nor are the admin dashboard and the pages that only render.

### Behaviour of the stream consumer as written

These follow the code of src/components/AIChat.tsx rather than the Server-Sent Events format; the model keeps them:
- the tail left in the buffer when the stream ends is never processed;
- only `data: ` with the space counts;
- each `data:` line is handled on its own rather than joined into one event;
- `[DONE]` does not stop reading;
- a reply whose deltas are all empty adds no assistant message.
