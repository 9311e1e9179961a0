# wabot broadcast manager — Dafny model

A model of the core of a WhatsApp broadcast console. The `WhatsAppManager` singleton
(`lib/whatsappManager.ts`) holds the session with the messaging transport, the login QR and the
callers waiting for it, the broadcast configuration, a seven-day activity log and the recurring
broadcast timer. The console page (`app/page.tsx`) counts recipients on its own and decides
which buttons are enabled and which request the send button issues.

Modules:

- `Wrappers`: `Option`.
- `Text`: the JavaScript string operations the normaliser relies on. These are the `\s`
  white-space class, `trim`, the removal of every non-digit (`\D`), and `split(/[;\n\r]+/)`
  with its empty pieces dropped.
- `Recipients`: `sanitizeRecipients`. It works chunk by chunk: keep the digits, rewrite a
  leading `0` to the country prefix `62`, accept 6 to 15 digits, and keep the first occurrence
  of each number.
- `Links`: `containsUrl` and `extractFirstUrl` over `/https?:\/\/\S+/i`, with trailing
  punctuation removed.
- `Config`: the stored and derived configuration, and the clamping `updateConfig` applies.
- `ActivityLog`: log entries and the seven-day prune.
- `WhatsAppManager`: class `Manager` with the manager's fields, updated in place by its methods.
  - Transport events, the clock and whether credentials exist on disk are method parameters.
  - Each `await` of an `async` method is a boundary between two model methods, except the
    awaits inside `logout`, `clearAuth` and the remote-logout branch of `handleConnectionUpdate`,
    which are each one step (see "## Left out").
  - A login waiter is a number. The map `settled` records what its promise resolved to, and a
    promise resolves at most once.
  - The runtime's table of running intervals is the set `liveTimers`.
- `Console`: the page's `countRecipients` and its decision rules, as functions of the component
  state.

A login wait that ends with `logged-out` makes `requestLogin` fail. The wait resolves with
`logged-out` when its timeout fires with no QR cached (lib/whatsappManager.ts:302-309), or when the
remote logs the device out, which clears the QR first (lib/whatsappManager.ts:280-281, 297).
`requestLogin` then renders `loginQr ?? ""`, which is the empty text, and the QR renderer rejects
the empty text; the error is logged and rethrown (lib/whatsappManager.ts:346-352). The model's
`LoginFailed` result is that rejection, and `Manager.LoginTimeout` and
`Manager.HandleConnectionUpdate` state it.

## Model

| member | source | states |
|---|---|---|
| Text.Digits | lib/whatsappManager.ts:120 | the result is all digits and no longer than the input |
| Text.Trim | lib/whatsappManager.ts:114 | the result is no longer than the input and neither starts nor ends with white space |
| Text.TrimStart | lib/whatsappManager.ts:114 | the result is a suffix of the input; everything removed is white space; the result does not start with white space |
| Text.TrimEnd | lib/whatsappManager.ts:114 | the result is a prefix of the input; everything removed is white space; the result does not end with white space |
| Text.TrimKeepsDigits | lib/whatsappManager.ts:114-120 | trimming a chunk never changes the digits extracted from it |
| Text.DigitsAppend | lib/whatsappManager.ts:120 | digit extraction works character by character, so it distributes over concatenation |
| Text.Pieces | lib/whatsappManager.ts:112-113 | every piece of the split is non-empty and free of separators |
| Text.PiecesOfRun | lib/whatsappManager.ts:112-113 | a non-empty text without separators is a single piece |
| Text.PiecesAtSeparator | lib/whatsappManager.ts:112-113 | splitting at a separator gives the pieces of the left side followed by those of the right side; the empty text has no pieces |
| Text.PiecesSpec | lib/whatsappManager.ts:112-113 | splitting on runs of `;`, `\n` and `\r` gives non-empty pieces without separators whose concatenation is the text minus its separators |
| Recipients.Chunks | lib/whatsappManager.ts:112-115 | no chunk is empty |
| Recipients.Normalize | lib/whatsappManager.ts:120-132 | an accepted chunk yields 6 to 15 digits |
| Recipients.NormalizeSpec | lib/whatsappManager.ts:120-132 | no digits gives nothing; a leading `0` becomes `62`; the result is kept exactly when it has 6 to 15 digits; the `+` branch is never taken |
| Recipients.LocalAndInternationalAgree | lib/whatsappManager.ts:123-126 | the `0…` and `62…` spellings of a number normalise to the same address |
| Recipients.CandidatesMembers | lib/whatsappManager.ts:119-135 | an address is a candidate exactly when some chunk normalises to it |
| Recipients.Dedup | lib/whatsappManager.ts:117-137 | only elements of the input appear in the insertion-ordered set's list |
| Recipients.IndexOf | lib/whatsappManager.ts:137 | the first position at which an element occurs |
| Recipients.DedupSpec | lib/whatsappManager.ts:117-137 | the insertion-ordered set keeps each element once, loses none, adds none, and lists them by first occurrence |
| Recipients.Sanitized | lib/whatsappManager.ts:111-138 | every element of the recipient list has 6 to 15 digits |
| Recipients.SanitizedSpec | lib/whatsappManager.ts:111-138 | the result has no duplicates; every element has 6 to 15 digits and comes from some chunk; every accepted chunk is represented; order of first occurrence |
| Recipients.SanitizedEmptyExactly | lib/whatsappManager.ts:111-138 | the result is empty exactly when no chunk is accepted; the empty text gives the empty list |
| Recipients.SanitizeRecipients | lib/whatsappManager.ts:111-138 | the loop over the chunks computes the specified list: distinct addresses of 6 to 15 digits |
| Links.ContainsUrl | lib/whatsappManager.ts:140-142 | the text contains a URL exactly when the leftmost search finds a match |
| Links.ExtractFirstUrl | lib/whatsappManager.ts:144-148 | nothing is found exactly when the pattern matches at no position; a URL found is no longer than the text |
| Links.RunEnd | lib/whatsappManager.ts:145 | the greedy `\S+` stops at the first white space or at the end |
| Links.FirstMatch | lib/whatsappManager.ts:145 | the leftmost position where the pattern matches, or none when it matches nowhere |
| Links.StripTrailingPunctuation | lib/whatsappManager.ts:147 | the result is a prefix; everything removed is punctuation; the result does not end in punctuation |
| Links.StripKeepsPrefix | lib/whatsappManager.ts:147 | the strip stops at the last character that is not punctuation |
| Links.ExtractFirstUrlIffContainsUrl | lib/whatsappManager.ts:140-148 | `extractFirstUrl` finds nothing exactly when `containsUrl` is false |
| Links.MatchedTextShape | lib/whatsappManager.ts:145 | the match is the scheme, ending in `/`, followed by non-space characters |
| Links.ExtractedUrlShape | lib/whatsappManager.ts:144-148 | an extracted URL has at least 7 characters, starts with `http://` or `https://` in any case, has no white space, does not end in punctuation, and is a prefix of the text at the leftmost match |
| Config.SafeConfig | lib/whatsappManager.ts:401-413 | the clamped configuration has no negative number and a minimum delay not above the maximum; texts are kept; numbers only go up; a value already valid is kept and a negative minimum or interval becomes 0 |
| Config.SafeConfigFixesClamped | lib/whatsappManager.ts:404-413 | a configuration that is already clamped is unchanged, so clamping twice is clamping once |
| Config.WithRecipients | lib/whatsappManager.ts:170-175 | the stored fields are copied and the recipients are derived from `recipientsRaw` |
| ActivityLog.Stamp | lib/whatsappManager.ts:387-392 | the entry carries the given id, the time of the call and the summary's fields |
| ActivityLog.Pruned | lib/whatsappManager.ts:191-196 | pruning never lengthens the log |
| ActivityLog.PrunedKeepsExactlyRetained | lib/whatsappManager.ts:191-196 | pruning keeps exactly the entries at most seven days old |
| ActivityLog.PrunedDistributes | lib/whatsappManager.ts:191-196 | pruning works entry by entry, keeping the relative order |
| ActivityLog.PrunedLater | lib/whatsappManager.ts:191-196 | a later prune subsumes an earlier one; pruning twice at one time is pruning once |
| ActivityLog.FreshEntryLeads | lib/whatsappManager.ts:387-394 | the entry just added is always kept, at the front |
| WhatsAppManager.ResolveAll | lib/whatsappManager.ts:199-207 | a waiter that has already settled keeps its value |
| WhatsAppManager.FirstEmitted | lib/whatsappManager.ts:261-281 | a non-empty QR is emitted first; `connected` only for an open; `logged-out` only for a close with the logged-out code; nothing only without a QR and without an open |
| WhatsAppManager.ResolveAllSpec | lib/whatsappManager.ts:198-208 | after an emit every listed waiter is settled; a pending one gets the update; an already settled one keeps its value; no other waiter is touched |
| WhatsAppManager.TimeoutUpdate | lib/whatsappManager.ts:302-309 | a timeout yields the cached QR when there is one, else `logged-out` |
| WhatsAppManager.Rendered | lib/whatsappManager.ts:322-352 | rendering a QR fails exactly on the empty text, and otherwise gives a QR result for that text |
| WhatsAppManager.AfterWake | lib/whatsappManager.ts:335-352 | a non-empty QR update gives that QR; `connected` gives connected exactly; `logged-out` gives the cached QR when one is cached and fails otherwise; a QR result never carries the empty text |
| WhatsAppManager.Manager.constructor | lib/whatsappManager.ts:56-79 | no socket, not connected, no credentials, no QR, no waiters, default configuration with no recipients, empty log, no timer |
| WhatsAppManager.Manager.ApplyConfig | lib/whatsappManager.ts:170-175 | the configuration becomes the stored one with its derived recipients |
| WhatsAppManager.Manager.UpdateConfig | lib/whatsappManager.ts:398-419 | the new configuration is the clamped one; its recipients are the normalised text; the texts are stored as given |
| WhatsAppManager.Manager.LoadLogs | lib/whatsappManager.ts:177-185 | the log becomes the stored entries, pruned |
| WhatsAppManager.Manager.PruneLogs | lib/whatsappManager.ts:191-196 | the log keeps exactly its entries at most seven days old |
| WhatsAppManager.Manager.AddLog | lib/whatsappManager.ts:387-396 | the new entry goes in front and the older entries are pruned |
| WhatsAppManager.Manager.EmitLoginUpdate | lib/whatsappManager.ts:198-208 | the list is emptied, and the waiters it held are woken once each, in order, with the same update |
| WhatsAppManager.Manager.RegisterWaiter | lib/whatsappManager.ts:310-313 | a fresh, unsettled waiter joins the end of the list |
| WhatsAppManager.Manager.LoginTimeout | lib/whatsappManager.ts:302-309 | a pending waiter resolves with the cached QR, or with `logged-out`; its `requestLogin` then returns the cached QR, or fails when none is cached; a settled waiter is unchanged |
| WhatsAppManager.Manager.InitSocket | lib/whatsappManager.ts:210-254 | with a socket nothing changes; otherwise credentials are read once, a socket exists and the session is not connected |
| WhatsAppManager.Manager.ClearAuth | lib/whatsappManager.ts:289-298 | credentials and QR are forgotten |
| WhatsAppManager.Manager.HandleConnectionUpdate | lib/whatsappManager.ts:256-287 | the state after each kind of event; a reconnect is requested exactly for a close that is not a remote logout; waiters are woken by the first update the event emits and only then; on a remote logout every pending waiter's `requestLogin` fails |
| WhatsAppManager.Manager.CacheQr | lib/whatsappManager.ts:261-264 | the QR is cached and the waiters are woken with it |
| WhatsAppManager.Manager.MarkOpen | lib/whatsappManager.ts:266-270 | connected with credentials, no QR, waiters woken with `connected` |
| WhatsAppManager.Manager.MarkClosed | lib/whatsappManager.ts:272-286 | disconnected without socket; a remote logout clears the credentials and wakes the waiters with `logged-out`; any other close keeps them and asks for a reconnect |
| WhatsAppManager.Manager.RequestLogin | lib/whatsappManager.ts:317-333 | connected answers at once; a cached QR answers without registering; otherwise exactly one fresh waiter is registered |
| WhatsAppManager.Manager.ResumeLogin | lib/whatsappManager.ts:335-352 | the result once the waiter's promise has resolved; after `logged-out` it fails exactly when no QR is cached; a QR result never carries the empty text |
| WhatsAppManager.Manager.Logout | lib/whatsappManager.ts:356-371 | no timer, no next run, no socket, not connected, no credentials, no QR, whatever held before |
| WhatsAppManager.Manager.GetStatus | lib/whatsappManager.ts:373-381 | `timerActive` holds exactly when an interval is running, and then exactly one is |
| WhatsAppManager.Manager.StartSchedule | lib/whatsappManager.ts:425-448 | the previous interval stops first, so at most one runs; with no positive interval nothing runs and no next run is set; otherwise one interval of `intervalMinutes`·60000 ms runs and the next run is one interval from now |
| WhatsAppManager.Manager.StopSchedule | lib/whatsappManager.ts:450-456 | no interval runs and no next run is set, whatever held before |
| WhatsAppManager.Manager.ScheduledRunSettled | lib/whatsappManager.ts:437-444 | as written: a successful scheduled run sets the next run one period later; a failed one changes nothing |
| WhatsAppManager.Manager.ScheduledRunSettledForCurrentTimer | lib/whatsappManager.ts:437-444 | corrected: only the running timer's success moves the next run, so a next run is never set without a timer |
| WhatsAppManager.StaleNextRunAfterStop | lib/whatsappManager.ts:437-456 | a run that succeeds after `stopSchedule` leaves no timer but a next run |
| WhatsAppManager.NoStaleNextRunAfterStop | lib/whatsappManager.ts:437-456 | with the corrected continuation the same sequence leaves no next run |
| Console.PageNormalizeAgrees | app/page.tsx:169-178 | the page's per-chunk rule, which has no `+` step, is the manager's |
| Console.PageNormalize | app/page.tsx:169-178 | an accepted chunk yields 6 to 15 digits |
| Console.DistinctCardinality | app/page.tsx:163-181 | a list without repeats is as long as its set is large |
| Console.CountRecipients | app/page.tsx:162-182 | the count is the length of the manager's recipient list; it is 0 exactly when no chunk is accepted, in particular for empty input |
| Console.SpellingsCountOnce | app/page.tsx:172-178 | the `0…` and `62…` spellings of one number count once |
| Console.SendDisabled | app/page.tsx:415-418 | disabled when not connected; enabled while connected with a timer; otherwise disabled exactly when the message is blank or there are no recipients |
| Console.HandleSend | app/page.tsx:364-389 | not connected reports an error and issues nothing; with a timer only stop; otherwise start with an immediate send, scheduling exactly when the interval is positive |
| Console.SendButtonDisabled | app/page.tsx:495 | disabled while busy or not connected; enabled when idle and connected with a timer |
| Console.EnabledSendIssuesRequest | app/page.tsx:364-418 | an enabled click always issues a request: stop while a timer runs, else a send of a non-blank message to at least one recipient |
| Console.StatusBadge | app/page.tsx:438-442 | "Connected" exactly when connected; "Awaiting connection" exactly when not connected with credentials; "Not connected" otherwise |
| Console.LoginDisabled | app/page.tsx:477 | disabled when connected, and when idle exactly then |
| Console.LogoutDisabled | app/page.tsx:488 | disabled with neither connection nor credentials, and when idle exactly then |
| Console.ButtonsFollowBadge | app/page.tsx:438-488 | when idle, logout is offered exactly when the badge is not "Not connected", and login exactly when it is not "Connected" |
| Console.SendButtonLabel | app/page.tsx:497-501 | "Working…" exactly while busy; "Stop Auto Broadcast" exactly when idle with a timer |
| Console.LabelMatchesAction | app/page.tsx:364-501 | when enabled and idle, the button reads "Stop Auto Broadcast" exactly when the click stops the schedule |

## Left out

- `sendBroadcast` and `sendNow`: `lib/whatsappManager.ts` calls `sendBroadcast` but does not define it, so it is not part of this model. A scheduled run is a call that succeeds or fails, given as a parameter of `ScheduledRunSettled`. The `sending` flag and the log entries a broadcast writes are not modelled.
- `buildLinkPreview`: it calls the transport's link-preview service. Only the URL extraction it relies on is modelled.
- The transport library is not modelled. That covers socket creation, `fetchLatestBaileysVersion`, `creds.update`/`saveCreds`, `socket.logout()`, and the value 401 of its `DisconnectReason.loggedOut`, which is taken as given. A socket is a boolean, and its events are the input of `HandleConnectionUpdate`.
- Concurrency within `initSocket` is not modelled. The `readyPromise` de-duplication of concurrent calls is left out, and so is the failure of `ensureAuthState`. `InitSocket` models a call that finds no attempt in flight.
- Interleavings at `await` points are not modelled. `logout`, the remote-logout branch of `handleConnectionUpdate` and `requestLogin` are each modelled as steps with no await inside them. In the source, other events can run between `clearAuth` and the lines after it.
- Real timers are not modelled: `setInterval`/`setTimeout` firing, `unref`, and the 1-second reconnect `delay`. A reconnect is the `reconnect` result, and a timeout is a `LoginTimeout` call.
- WhatsAppManager.Manager.StartSchedule: does not model that Node.js runs an interval longer than 2³¹−1 ms after 1 ms. The model keeps the exact period `intervalMinutes`·60000.
- Storage is not modelled: reading and writing `config.json`, `logs.json` and the credentials directory. Their contents are method parameters, as in `ApplyConfig`, `LoadLogs` and `InitSocket(credsExist)`.
- `QRCode.toDataURL` is modelled only by when it fails: on the empty text. A QR result carries the text that would be rendered, not the image.
- `randomUUID` and `Date.now()` are parameters of `AddLog`, `PruneLogs`, `StartSchedule` and `ScheduledRunSettled`. ISO timestamps are integer milliseconds.
- Numbers are unbounded integers. That drops fractional values, `NaN`, the `Number(…)` coercion, the `??` defaults of `updateConfig` and the page's `parseNumber`. In JavaScript `Math.max(0, NaN)` is `NaN`, so the clamp only holds for input that is not `NaN`.
- `getLogs`, the HTTP routes, the page's fetch handlers, the rendering and the styles are not modelled.

## Findings

| source | as written | input that shows it | evidently intended | confidence | as-written member | corrected member |
|---|---|---|---|---|---|---|
| lib/whatsappManager.ts:437-444 | the interval's continuation sets `nextRun` after a successful scheduled broadcast, even when `stopSchedule` or `logout` has cleared the timer in the meantime | `intervalMinutes = 1`; `startSchedule` at 0 ms; the interval fires at 60000 ms; `stopSchedule` at 61000 ms while that broadcast is still sending; the broadcast succeeds at 90000 ms; `getStatus` then reports `timerActive = false` and `nextRun = 150000` | a next run is announced only while a schedule runs | not executed; the broadcast has to outlast the stop, which pacing delays over many recipients make plausible | WhatsAppManager.Manager.ScheduledRunSettled, WhatsAppManager.StaleNextRunAfterStop | WhatsAppManager.Manager.ScheduledRunSettledForCurrentTimer, WhatsAppManager.NoStaleNextRunAfterStop |
