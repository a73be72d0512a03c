# gmail-with-brains, modelled in Dafny

gmail-with-brains is an inbox assistant. An Express backend reads a user's Gmail, asks a language model for
a JSON summary of each message, and caches the summaries in a Supabase table keyed by user and email id.
It also runs free-text instructions against a message, sends replies, and logs every action to an
activity table. A React client lists the emails, merges summaries into the list, and shows the activity log.

The model covers the logic between the external calls:

- `Gmail` (`gmail.dfy`): normalising a Gmail message (`parseEmail`), and building and encoding a reply (`createRawEmail`, `sendReply`).
  - `Base64Url` and `Utf8`: the encoders of the raw message, each with a decoder and a proved round trip.
- `Summarizer`: the two prompts, the greedy `{…}` extraction from the model's reply, and its failure cases.
- `Store`: the `email_summaries`, `gmail_connections` and `activity_logs` tables.
  - They are a `Database` class whose methods append rows.
  - `Valid()` is the invariant that no two summary rows share a (user, email id) key.
- `Auth`: `requireAuth` (the Bearer header and the verifier's outcome) and `requireGmail` (the connection lookup, the expiry test, and refresh or reuse with write-back).
- `GmailAuth`: the OAuth URL's `state`, the callback's validation and upsert, status, and disconnect.
- `Emails`: the three `/api/emails` routes, as methods over the `Database`.
  - The listing attaches cached summaries.
  - Single summarize checks the cache, then computes and inserts on a miss.
  - Batch summarize does the same for up to 10 ids in order, and aborts as a whole.
- `Actions`: `/api/actions/execute` and `/api/actions/reply`.
- `Dashboard`, `EmailList`, `ActivityLog`: the client helpers.
  - `Dashboard` filters and merges the list, as a `State` class for the component's state.
  - `EmailList` extracts the display name and looks up the badge colour.
  - `ActivityLog` formats `details`.

External services are parameters:

- the Gmail API (`Gmail.MailApi`);
- base64 body decoding (`Gmail.Decoder`);
- the model call (`Summarizer.Llm`);
- `JSON.parse` (`Summarizer.JsonParser`);
- Supabase token verification (`Auth.Verifier`);
- Google token refresh, exchange and userinfo (`Auth.Refresher`, `GmailAuth.Google`);
- sending mail.

Route handlers bundle the calls they make in a `Services` value. `Emails.Live` and `Actions.Live` bind that value to the model's own `Gmail` and `Summarizer` functions, and `Emails.LiveMissStoresHeaders` and `Actions.LiveEmailIsMessage` state what the handlers then see. A route answers with `Http.Response`, which is `Done(body)` or `Failed(status, error)`. Times are integers, with `now` as a parameter. JSON values are `Json.Value`: numbers are integers, and an object is its sequence of entries.

## Model

| member | source | states |
|---|---|---|
| Gmail.GetHeader | backend/lib/gmail.js:57-59 | the value of the first header whose name equals the asked name up to ASCII case; "" when no header matches |
| Gmail.GetHeaderIgnoresCase | backend/lib/gmail.js:58-59 | two names with the same lower-case form find the same value |
| Gmail.FirstPart | backend/lib/gmail.js:65-67 | `find` by MIME type: the position of the first part of that type, None exactly when no part has it |
| Gmail.StripTags | backend/lib/gmail.js:78 | after replacing `<…>` runs by spaces, no '<' is followed anywhere by '>', and every character is a space or comes from the input |
| Gmail.StripKeepsText | backend/lib/gmail.js:78 | text before the first '<' is kept as it is, so a text without '<' is unchanged |
| Gmail.StripTagBecomesSpace | backend/lib/gmail.js:78 | a '<', the characters up to the first '>', and that '>' become one space, and the rest is processed after it |
| Gmail.CollapseSpaces | backend/lib/gmail.js:78 | after `replace(/\s+/g, ' ')` no two whitespace characters are adjacent, every remaining whitespace is ' ', the text is no longer and empty only for empty input, and a text without whitespace is unchanged |
| Gmail.CollapseKeepsText | backend/lib/gmail.js:78 | collapsing keeps every character that is not whitespace, in order |
| Gmail.CleanHtmlShape | backend/lib/gmail.js:78 | the HTML fallback neither starts nor ends with whitespace and has no two adjacent whitespace characters |
| Gmail.ParseEmail | backend/lib/gmail.js:56-95 | id, threadId and snippet are copied; from, to, subject and date are the `getHeader` lookups of From, To, Subject and Date in the headers, or in [] when there are none; labels are labelIds or []; the body is a prefix of the extracted text, at most 10000 long, and all of it when that text is short enough |
| Gmail.PartsShadowTopLevelBody | backend/lib/gmail.js:64-83 | when `parts` exists, the top-level body data never affects the body |
| Gmail.FirstPlainPartDecides | backend/lib/gmail.js:65-79 | a first text/plain part without data sends the body to the HTML fallback, whatever later text/plain parts hold |
| Gmail.HtmlOnlyBody | backend/lib/gmail.js:72-78 | with no text/plain part, the body is the cleaned first text/html part, capped at 10000 |
| Gmail.FetchEmailById | backend/lib/gmail.js:43-51 | the parsed message for a known id, None (the call throws) for an unknown one |
| Gmail.FetchAll | backend/lib/gmail.js:26-35 | the listed ids fetched in order, one email per id, failing as a whole when one fetch fails |
| Gmail.FetchEmails | backend/lib/gmail.js:15-38 | no result when listing fails; otherwise one parsed email per listed id, in list order |
| Gmail.RawTextLayout | backend/lib/gmail.js:119-131 | the message text is the header lines joined by CRLF, then CRLF CRLF, then the body |
| Gmail.NoThreadingHeadersWithoutId | backend/lib/gmail.js:119-128 | without a messageId the header lines are exactly To, Subject, Content-Type and MIME-Version, in that order |
| Gmail.CreateRawEmail | backend/lib/gmail.js:118-133 | base64url-decoding and then UTF-8-decoding the result gives back exactly the CRLF-joined message text |
| Gmail.SendReply | backend/lib/gmail.js:101-113 | the request keeps the threadId and its raw text decodes to the message with subject "Re: " + subject, even when the subject already starts with "Re:" |
| Base64Url.DecodeEncode | backend/lib/gmail.js:132 | decoding the unpadded base64url encoding of any byte sequence gives it back |
| Utf8.DecodeEncode | backend/lib/gmail.js:132 | decoding the UTF-8 encoding of any string gives it back |
| Text.Trim | backend/lib/gmail.js:78 | `trim()` keeps one contiguous block of the input, removes only whitespace before and after it, and the block neither starts nor ends with whitespace |
| Text.Split | backend/middleware/auth.js:14 | `split` on one character: at least one field, no field holds the separator, joining the fields by it gives the input back, and there are two or more fields exactly when the separator occurs |
| Summarizer.SummaryPromptEmbedsBody | backend/lib/summarizer.js:20 | the summary prompt contains the first 4000 characters of the body as one block |
| Summarizer.SummaryPromptSeesOnlyPrefix | backend/lib/summarizer.js:9-29 | two bodies with the same first 4000 characters give the same summary prompt |
| Summarizer.InstructionPromptEmbeds | backend/lib/summarizer.js:50-55 | the instruction prompt contains the instruction and the first 2000 characters of the body |
| Summarizer.InstructionPromptSeesOnlyPrefix | backend/lib/summarizer.js:48-57 | two bodies with the same first 2000 characters give the same instruction prompt |
| Summarizer.ExtractJson | backend/lib/summarizer.js:39 | a span exists exactly when some '{' is followed by a '}', and it then runs from the first '{' through the last '}' |
| Summarizer.SummarizeEmail | backend/lib/summarizer.js:8-42 | success exactly when the model answers, a span exists and it parses; the summary is whatever the parse returns; the missing-span failure happens exactly when no '{' is followed by a '}' |
| Summarizer.ProcessInstruction | backend/lib/summarizer.js:47-66 | success exactly when the model answers with at least one block; the result is the first block's text unchanged |
| Store.FindSummary | backend/routes/emails.js:65-70 | `.single()` lookup by (user, email id): None exactly when no row has that key; a found row is in the table with that key |
| Store.FindUnique | backend/routes/emails.js:65-74 | with unique keys, looking a row's key up finds that row |
| Store.FindAfterInsert | backend/routes/emails.js:81-87 | after an append the lookup finds the earlier row if there was one, else the new row when it has the key, else nothing |
| Store.InsertKeepsUnique | backend/routes/emails.js:77-87 | appending a row whose key is absent keeps the keys unique |
| Store.Database.Log | backend/routes/emails.js:43-47 | an activity insert appends exactly one entry and changes nothing else |
| Store.Database.InsertSummary | backend/routes/emails.js:81-87 | a summary insert appends exactly one row and changes nothing else |
| Auth.BearerToken | backend/middleware/auth.js:10-14 | a token exists exactly when the header is present and starts with "Bearer "; it follows that prefix, holds no space, and ends at the end of the header or at a space |
| Auth.RequireAuth | backend/middleware/auth.js:8-27 | the verified user exactly when the token verifies; 401 "Missing authorization token" exactly without a Bearer header; 401 "Invalid or expired token" exactly when the verifier rejects; 500 "Authentication failed" exactly when it throws |
| Auth.MissingHeaderSkipsVerifier | backend/middleware/auth.js:10-12 | without a Bearer header the outcome is 401 whatever the verifier would say |
| Auth.StoredExpiry | backend/middleware/auth.js:66 | a missing or zero expiry_date is stored as null, any other is kept |
| Auth.Refreshed | backend/middleware/auth.js:62-69 | the write-back changes only access_token, token_expiry and updated_at; email, refresh_token and connected_at are kept |
| Auth.ResolveGmail | backend/middleware/auth.js:37-81 | 403 exactly when the user has no connection; the session carries the connection's email; the stored token unless expired with a refresh token, else the refreshed token; 500 exactly when that refresh fails; a connected user who needs no refresh gets the stored token and the table unchanged; a successful refresh gives a session and writes the three fields back exactly when the write takes effect; the table changes in no other way |
| Auth.NullExpiryReuses | backend/middleware/auth.js:48 | a connection without expiry never refreshes: its stored token is handed on and nothing is written |
| Auth.ExpiredWithoutRefreshTokenReuses | backend/middleware/auth.js:50-74 | an expired connection without a refresh token hands on the stored token and raises no error |
| Auth.RequireGmail | backend/middleware/auth.js:33-83 | authentication failures pass through unchanged; otherwise the answer and the connection table are those of the resolution; summaries and activity are untouched |
| GmailAuth.AuthUrl | backend/routes/gmail-auth.js:19-34 | an authenticated caller gets offline access, the consent prompt, the three Gmail scopes and its own user id as `state` |
| GmailAuth.UpsertedRow | backend/routes/gmail-auth.js:57-67 | the upserted row takes the email and token, a null refresh_token when none was given, a null expiry when none was given, and keeps an existing row's connected_at |
| GmailAuth.PlanCallback | backend/routes/gmail-auth.js:40-86 | missing code or state exactly gives missing_params; a failed exchange or userinfo exactly gives auth_failed; a connection is stored under the user named by `state`: the upserted row of the userinfo email and the exchanged tokens, keeping an existing connectedAt |
| GmailAuth.StateNamesUser | backend/routes/gmail-auth.js:30-41 | a callback that gets the `state` of an auth URL stores the connection for the user who asked for that URL |
| GmailAuth.Callback | backend/routes/gmail-auth.js:40-86 | each outcome's redirect; only a successful upsert replaces the user's row and appends gmail_connected {email}; the other outcomes write nothing |
| GmailAuth.GetStatus | backend/routes/gmail-auth.js:92-109 | connected exactly when the user has a row, with that row's email, connected_at and token_expiry |
| GmailAuth.StatusAfterConnect | backend/routes/gmail-auth.js:57-67 | after an upsert the status shows the upserted row |
| GmailAuth.StatusAfterDisconnect | backend/routes/gmail-auth.js:115-119 | after the delete the status is not connected |
| GmailAuth.Disconnect | backend/routes/gmail-auth.js:115-128 | deletes the user's row, appends gmail_disconnected {}, and answers success whatever the delete did |
| Emails.CachedRows | backend/routes/emails.js:24-28 | the query returns exactly the table rows of this user whose email id is among the fetched ids |
| Emails.IndexCached | backend/routes/emails.js:30-33 | the `forEach` fill of cachedMap builds the keyed map in which a later row overwrites an earlier one |
| Seqs.IndexByLastWins | backend/routes/emails.js:30-33 | a key is in the map exactly when some element has it, and it maps to the value of the last such element |
| Emails.Attach | backend/routes/emails.js:36-40 | one listed entry per fetched email, in order, marked summarized exactly when the map has its id |
| Emails.ListingMatchesTable | backend/routes/emails.js:23-40 | with unique keys each listed email is summarized exactly when the table has its (user, id) row, and carries that row's summary when truthy, else null |
| Emails.ListEmails | backend/routes/emails.js:13-54 | defaults 20 and "is:inbox"; the listing of the fetched emails and a fetch_emails {count, query} entry; 500 and no entry when the fetch fails |
| Emails.SummarizeStep | backend/routes/emails.js:64-87 | a cache hit exactly when the table has the key, with that row; a fresh row carries the key |
| Emails.MissComputesRow | backend/routes/emails.js:76-87 | on a miss the step fails exactly when the fetch or the summary fails; otherwise the new row has the email's subject and from and the computed summary |
| Emails.HitIgnoresServices | backend/routes/emails.js:72-74 | a cache hit does not depend on the Gmail or model services |
| Emails.LiveMissStoresHeaders | backend/routes/emails.js:76-87 | with the live Gmail and model services a miss stores the Subject and From headers of the message held under the id and the summary the model's reply parses to, and throws exactly when there is no such message or summarising fails |
| Emails.SecondCallHits | backend/routes/emails.js:81-96 | after a miss inserts its row, the same request is a cache hit returning that row |
| Emails.SummarizeDetails | backend/routes/emails.js:90-94 | the log details carry the email id, the subject and the summary's priority, and no priority entry when the summary has none |
| Emails.SummarizeOne | backend/routes/emails.js:60-101 | a hit answers the stored summary with cached true and writes nothing; a miss appends the row and a summarize_email entry and answers cached false; a failure answers 500 and writes nothing; keys stay unique |
| Emails.BatchFollowsIds | backend/routes/emails.js:116-142 | a completed batch has one result per processed id, in input order |
| Emails.BatchKeepsUnique | backend/routes/emails.js:116-142 | the batch only appends rows and keeps the keys unique |
| Emails.BatchStoresEveryId | backend/routes/emails.js:116-142 | after a completed batch every processed id has a row for the user |
| Emails.RepeatIsCached | backend/routes/emails.js:118-139 | a repeated id in one batch is served from the cache at its later occurrence |
| Emails.AbortSticks | backend/routes/emails.js:116-153 | once an id fails, the rest of the batch changes nothing more |
| Emails.SummarizeAll | backend/routes/emails.js:107-155 | missing or empty ids give 400 and no work; otherwise the first 10 ids are processed in order; a complete batch answers all results and logs batch_summarize {count}; a failure answers 500 with no results and no log entry |
| Actions.Execute | backend/routes/actions.js:12-35 | 400 when emailId or instruction is falsy; 500 and no entry when the fetch or the model fails; otherwise the result with only the email's id and subject, then one execute_instruction entry |
| Actions.LiveEmailIsMessage | backend/routes/actions.js:49-56 | with the live services the email a handler works on is the message held under the id for the session's token: its From and Subject headers, its thread and its id; the fetch fails exactly when there is no such message |
| Actions.Reply | backend/routes/actions.js:41-70 | 400 when emailId or replyBody is falsy; the reply goes to the email's From with "Re: " + its subject under its threadId, with no messageId; one send_reply entry and "Reply sent" only after the send succeeds |
| Actions.ReplyHasNoThreadingHeaders | backend/routes/actions.js:51-56 | the reply text has exactly the four base header lines, with no In-Reply-To or References |
| Dashboard.UnsummarizedIds | frontend/src/components/Dashboard.jsx:63 | an id is requested exactly when some unsummarized email has it; nothing is requested exactly when every email is summarized |
| Dashboard.UnsummarizedIdsInOrder | frontend/src/components/Dashboard.jsx:63 | the ids keep the list's order and repetitions: those of a concatenation are those of its parts in turn, and one email gives its id exactly when it is not summarized |
| Dashboard.MarkSummarized | frontend/src/components/Dashboard.jsx:48-52 | same length and emails; emails with the id get the summary and are marked; every other entry is unchanged |
| Dashboard.MarkedLeavesBatch | frontend/src/components/Dashboard.jsx:48-63 | after one email is summarized, a later summarize-all does not request it |
| Dashboard.SummaryMapOf | frontend/src/components/Dashboard.jsx:75-78 | the `forEach` fill of summaryMap builds the keyed map in which a later result overwrites an earlier one |
| Dashboard.Merge | frontend/src/components/Dashboard.jsx:80-84 | length, order and emails are preserved, and an already summarized email stays summarized |
| Dashboard.MergeTakesLastResult | frontend/src/components/Dashboard.jsx:75-84 | an email without a result is unchanged; otherwise it takes the last result's summary when that is truthy and is unchanged when it is falsy |
| Dashboard.ErrorMessage | frontend/src/lib/api.js:24-27 | the error text is the response's error, or "Request failed" when it has none |
| Dashboard.State.constructor | frontend/src/components/Dashboard.jsx:11-14 | an empty list, nothing selected, no error |
| Dashboard.State.HandleSummarize | frontend/src/components/Dashboard.jsx:40-60 | on success the list is marked for that id and the selected email is updated only when its id matches; on failure only the error is set |
| Dashboard.State.HandleSummarizeAll | frontend/src/components/Dashboard.jsx:62-90 | requests exactly the unsummarized ids, and nothing when there are none; on success the list is merged with the returned results; on failure only the error is set; the selection is untouched |
| EmailList.NameMatch | frontend/src/components/EmailList.jsx:55 | a match is a non-empty run without '"' or '<', taken from the start or after one leading quote, and only in a sender that contains '<' |
| EmailList.NameMatchExact | frontend/src/components/EmailList.jsx:55 | the pattern matches exactly when the run after the optional quote can end before '<', or before a quote, whitespace and '<'; the group is then that run |
| EmailList.ExtractName | frontend/src/components/EmailList.jsx:53-57 | "Unknown" for an empty sender; the trimmed match, free of '"' and '<', when the pattern matches; otherwise the text before the first '@', or all of it without '@' |
| EmailList.AngleForm | frontend/src/components/EmailList.jsx:55-56 | `Name <addr>` yields the trimmed Name |
| EmailList.QuotedForm | frontend/src/components/EmailList.jsx:55-56 | `"Name" <addr>` yields the trimmed Name without the quotes |
| EmailList.BareAddress | frontend/src/components/EmailList.jsx:56 | a bare address yields its local part |
| EmailList.BadgeColor | frontend/src/components/EmailList.jsx:3-7 | each of high, medium and low gets its table colour exactly when the priority is that word; anything else gets "#666" |
| ActivityLog.Keys | frontend/src/components/ActivityLog.jsx:65 | the object's keys, each once |
| ActivityLog.KeysInFirstAppearanceOrder | frontend/src/components/ActivityLog.jsx:65 | the keys are listed in the order in which each first appears |
| ActivityLog.Entries | frontend/src/components/ActivityLog.jsx:65 | `Object.entries`: for an object, one entry per distinct key in key order, with the value the key reads; for an array, each index printed with its element; none for anything else |
| ActivityLog.EntryLines | frontend/src/components/ActivityLog.jsx:66 | one "key: value" line per entry, in order |
| ActivityLog.FormatDetails | frontend/src/components/ActivityLog.jsx:62-68 | falsy details give "-"; a string is returned unchanged; an empty object, a non-zero number or true give ""; any other truthy value gives its entries' "key: value" lines joined by ", " |
| ActivityLog.DistinctObjectLines | frontend/src/components/ActivityLog.jsx:65-67 | an object with distinct keys shows its entries in written order, as "key: value" lines joined by ", " |
| ActivityLog.FetchEmailsDetails | frontend/src/components/ActivityLog.jsx:65-67 | the details of a fetch_emails entry show as "count: N, query: Q" |

## Left out

- Network calls (Gmail list/get/send, Supabase auth and tables, Google token exchange, refresh and userinfo, the model call) are function parameters. Their failures are None, Err or a false flag.
- Concurrency is not modelled: `Promise.all` in `fetchEmails` is an in-order sequence of fetches, and the races between concurrent refreshes or summarize requests are left out.
- `Buffer.from(data, 'base64').toString('utf-8')` in `parseEmail` is the `Gmail.Decoder` parameter. `JSON.parse` is the `Summarizer.JsonParser` parameter.
- Strings are sequences of code points, not UTF-16 units, so `substring(0, n)` counts code points. `toLowerCase` is modelled for ASCII letters only.
- Dates are integers. `new Date(...)`, ISO formatting, `created_at` and `formatDate` are left out. Stored expiry times compare as integers.
- JSON numbers are integers. `parseInt` of `maxResults` is an optional integer.
- `Object.entries` lists integer-like keys first in JavaScript. The model keeps first-appearance order for every key.
- `priorityColors[...]` and `summaryMap[...]` also see inherited keys such as `constructor`. The model looks up own entries only.
- Store errors that supabase-js returns without throwing are ignored by the code, and the model ignores them too. The exceptions are the callback's upsert error, the requireGmail write-back (the `writeOk` flag) and the disconnect delete (the `deleteOk` flag).
- If a failed `.in(...)` query in the listing returns `data: null`, the listing shows every email as unsummarized. That case is not modelled separately.
- `.single()` errors when two rows match. The model takes the first match, which is the only match while `Database.Valid()` holds.
- The `/api/emails` routes are guarded by `requireAuth`, which never sets `req.googleAccessToken`, so in the source the Gmail calls receive an undefined token. The model passes the Gmail access as an input (the `Services` value). The client's `X-Google-Token` header is never read by the backend.
- `backend/server.js` and `backend/api/index.js` do not mount the gmail-auth router. The model still covers its handlers.
- The callback trusts `state` as the user id without checking it. The model does the same (`GmailAuth.StateNamesUser`).
- `generateAuthUrl`'s URL string is not built. `GmailAuth.AuthRequest` holds the parameters it is given.
- `emailIds` that are not arrays: the model takes an optional sequence of ids. A non-empty string or object would behave differently in the source.
- Dashboard's `loading` flag, the view switch and all rendering are left out. So are the other components, `AuthContext` and the header assembly in `api.js`.
- Express `req`/`res`/`next`, console logging and redirects are replaced by `Http.Response` values and redirect strings.
- An empty `content` list from the model makes `message.content[0].text` throw in the source. The model reports it as the `NoContent` failure, without naming the JavaScript error.
