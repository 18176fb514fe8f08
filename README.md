# DelphiX core, modelled in Dafny

DelphiX is a healthcare web application. It has a symptom chat that asks an AI model for a
preliminary diagnosis. It verifies NAFDAC drug registration codes through a chain of sources
(an external registry, IPFS records pinned on Pinata, earlier verifications). It runs an SOS
monitor that escalates a silent emergency session to the user's contacts and nearby hospitals.
It also has an admin area with a bootstrap for the first admin and a statistics dashboard.

This project models the decision logic of that core. The database collections are sequences in
insertion order, held by classes whose methods update them. The outside services are inputs of
the operations:

- the registry, the IPFS gateway, Pinata, text recognition, vision, transcription and the chat
  completion service;
- the current time, the environment variables and the files the setup script reads.

Timestamps are integers (milliseconds since the epoch). Expiry dates are integers too.

| module | file | models |
|---|---|---|
| `Common` | common.dfy | JavaScript string operations (`trim`, `split`, `join`, `includes`, `startsWith`, ASCII `toLowerCase`), truthiness and `||` defaults, searching and counting in sequences |
| `Types` | types.dfy | users, drug information, verification records, SOS events; user lookup by email, admin count, admin creation, default admin settings |
| `Ipfs` | ipfs.dfy | `src/lib/ipfs.ts` |
| `DrugVerification` | drug_verification.dfy | `src/lib/drug-verification.ts` |
| `VerifyRoute` | verify_route.dfy | `src/app/api/drug/verify/route.ts` |
| `Sos` | sos.dfy | `src/lib/sos.ts` |
| `Proxy` | proxy.dfy | `src/proxy.ts` |
| `AdminScript` | admin_script.dfy | `scripts/create-default-admin.mjs` |
| `AdminRoute` | admin_route.dfy | `src/app/api/admin/create-default-admin/route.ts` |
| `OpenRouter` | openrouter.dfy | `src/lib/openrouter.ts` |
| `AdminStats` | stats.dfy | `src/app/api/admin/stats/route.ts` |

## Model

| member | source | states |
|---|---|---|
| `Types.DateOf` | src/lib/ipfs.ts:172 | the date of a timestamp is the midnight of its day: a multiple of a day, at most the timestamp and less than a day before it |
| `Types.UserByEmail` | src/lib/auth.ts:16-19 | a found user is in the collection and has the email; nothing is found exactly when no user of any role has it |
| `Types.AdminCount` | src/app/api/admin/create-default-admin/route.ts:15 | the number of admins is at most the number of users |
| `Types.AdminCountPositive` | src/app/api/admin/create-default-admin/route.ts:15-17 | the admin count is positive exactly when some user has the admin role |
| `Types.NewAdminUser` | src/lib/auth.ts:21-53 | a created admin has the admin role, the given email, name and password hash, no emergency contacts, and is created now |
| `Types.InsertAdminEffect` | src/lib/auth.ts:40-44 | inserting a new admin raises the admin count by one, and a lookup of its email then finds a user |
| `Types.AdminSettingsFrom` | src/app/api/admin/create-default-admin/route.ts:6-8 | each default admin setting is its environment variable when non-empty and the built-in default otherwise; none is empty |
| `Ipfs.ConfiguredPassesUploadGuard` | src/lib/ipfs.ts:150-157 | a configured environment passes the upload function's own key check |
| `Ipfs.PlaceholderKeysPassUploadGuardOnly` | src/lib/ipfs.ts:31-40 | the placeholder keys pass the upload key check but do not count as configured |
| `Ipfs.UploadDrugToIPFS` | src/lib/ipfs.ts:27-95 | with a key missing nothing is sent and the upload fails with an error; success exactly when keys are present and Pinata answered ok, with the returned `IpfsHash` as CID; every failure carries an error and no CID |
| `Ipfs.SearchDrugOnIPFS` | src/lib/ipfs.ts:132-145 | nothing is fetched exactly when no index entry has the code; otherwise the CID fetched is that of the first matching entry, and the record is what the gateway holds for it |
| `Ipfs.DrugInfoToRecord` | src/lib/ipfs.ts:162-177 | code, registering user and registration time are kept; each present attribute is copied and each missing one gets its default (`Unknown Drug`, `Unknown Manufacturer`, `unverified`, today's date, `BATCH-<code>`) |
| `Ipfs.RecordToDrugInfo` | src/lib/ipfs.ts:182-192 | exactly the five drug attributes are copied, all present |
| `Ipfs.RecordToDrugInfoDropsRegistration` | src/lib/ipfs.ts:182-192 | records that differ only in code and registration fields give the same drug information |
| `Ipfs.RoundTrip` | src/lib/ipfs.ts:162-192 | drug information with all five attributes survives conversion to a record and back |
| `Ipfs.RoundTripFillsDefaults` | src/lib/ipfs.ts:162-192 | whatever is converted comes back with all five attributes present, a missing status as `unverified` |
| `DrugVerification.DetermineResultCases` | src/lib/drug-verification.ts:472-496 | each verdict, both directions: unverified iff status missing or `unverified`; verified iff status `verified` and no expiry before now; expired iff status `expired` or verified with an expiry before now; invalid iff any other status |
| `DrugVerification.ExpiryIsMonotone` | src/lib/drug-verification.ts:483-492 | as time passes a verdict only moves from verified to expired, never back |
| `DrugVerification.IpfsStep` | src/lib/drug-verification.ts:86-127 | unconfigured: a miss with no lookup; an index read that throws: a miss with no fetch; no index entry for the code: a miss with no fetch; otherwise the gateway is asked for the CID of an entry for the code with the latest creation time, and a hit exactly when it holds a record, which is converted and carries that CID |
| `DrugVerification.DatabaseStep` | src/lib/drug-verification.ts:137-160 | a miss exactly when the read throws or no stored verification of the code has result `verified`; a hit is the drug information of such a verification with the latest creation time |
| `DrugVerification.NewestVerificationIsAnswered` | src/lib/drug-verification.ts:145-153 | a verified record of the code stored no earlier than every other record is the one the history answers with |
| `DrugVerification.Resolve` | src/lib/drug-verification.ts:247-287 | source tags in strict priority: external iff the registry knows the code; IPFS iff that misses and the IPFS step hits; database iff both miss and the history hits; otherwise the `Drug <code>` placeholder; the history is consulted exactly in the last two cases |
| `DrugVerification.RegistryWinsOverHistory` | src/lib/drug-verification.ts:250-257 | a code known to the registry is answered by it even when it has verified history, and the history is not consulted |
| `DrugVerification.FailedReadsFallThrough` | src/lib/drug-verification.ts:122-125 | a failing index read gives no IPFS answer and a failing history read no database answer, so the chain goes on; with both failing, an unknown code gets the placeholder |
| `DrugVerification.VerifyByNAFDAC` | src/lib/drug-verification.ts:247-287 | the early-return chain returns the result and lookups of the resolution chain |
| `DrugVerification.FirstMatchFrom` | src/lib/drug-verification.ts:425 | the leftmost position at or after the start where the code pattern matches, or none when it matches nowhere after it |
| `DrugVerification.ExtractCode` | src/lib/drug-verification.ts:425-426 | the extracted code has seven characters and is the text at the leftmost match; none exactly when the pattern matches nowhere |
| `DrugVerification.BoundedCodeIsCode` | src/lib/drug-verification.ts:385-402 | text with a word-bounded code also has a plain code |
| `DrugVerification.BoundaryMatters` | src/lib/drug-verification.ts:385-425 | `104-12345` has no word-bounded code but has the plain code `04-1234` |
| `DrugVerification.KeywordSearchIgnoresCase` | src/lib/drug-verification.ts:437-461 | lower-casing the text first changes neither whether a drug is named nor the answer, except the name a miss carries |
| `DrugVerification.KeywordVerdict` | src/lib/drug-verification.ts:437-496 | the keyword answer is unverified exactly when the text names neither drug; a hit is verified until its expiry date and expired after it; a miss is named by the text, with an unknown manufacturer |
| `DrugVerification.UpperCaseNameIsFound` | src/lib/drug-verification.ts:437-449 | `AMOXICILLIN OR PARACETAMOL` is answered with paracetamol: case is ignored and paracetamol is checked first |
| `DrugVerification.VerifyByText` | src/lib/drug-verification.ts:421-467 | with a code in the text, the chain's result and lookups for the first code; otherwise the keyword result with source database and no lookup |
| `DrugVerification.VerifyByImage` | src/lib/drug-verification.ts:364-416 | no text read: the `Unknown Drug` placeholder with source unknown; a word-bounded code: the chain's result with that code as extracted code; otherwise the text variant's result |
| `DrugVerification.IpfsIndex.RegisterDrugToIPFS` | src/lib/drug-verification.ts:170-230 | missing name or manufacturer, or unconfigured IPFS: failure with no upload; an index insert that throws after the upload: failure with its message; success exactly when the upload returned a CID and the insert went through; only a success appends one index entry for the code and CID |
| `DrugVerification.RegisteredDrugIsFoundOnIpfs` | src/lib/drug-verification.ts:96-120 | after registration, stamped no earlier than the entries already indexed, a code the registry does not know resolves from IPFS, to the new CID and the stored record |
| `VerifyRoute.Dispatch` | src/app/api/drug/verify/route.ts:28-44 | `image` needs an image, `code` a non-empty code, `text` non-empty text; each variant is chosen exactly then, with that field |
| `VerifyRoute.MakeRecord` | src/app/api/drug/verify/route.ts:46-58 | the stored result is the classification of the returned drug information; the code is stored only for the `code` method; the record is created now |
| `VerifyRoute.VerificationStore.Post` | src/app/api/drug/verify/route.ts:12-78 | no session: 401 and no lookup; bad dispatch: 400 and no lookup; otherwise the lookups of the chosen variant; a failing insert: 500; otherwise exactly one record appended and echoed: the record of the chosen variant's result, created now, with its source and CID |
| `Sos.ActiveIndex` | src/lib/sos.ts:135-141 | the first event of the user with status active; none exactly when the user has no active event |
| `Sos.AfterActivate` | src/lib/sos.ts:6-34 | an existing active event is returned and nothing is inserted; otherwise one new active event is appended with activation and activity time now and empty notification lists |
| `Sos.ActivatePreservesValid` | src/lib/sos.ts:9-33 | activation keeps ids equal to positions and at most one active event per user |
| `Sos.ActivateIsIdempotent` | src/lib/sos.ts:9-17 | a second activation returns the same event and changes nothing |
| `Sos.AfterHeartbeat` | src/lib/sos.ts:36-46 | only the last activity time of the user's active event changes; no active event: nothing changes |
| `Sos.Escalate` | src/lib/sos.ts:109-119 | escalation sets the help time, the notified contacts to every contact's key and the notified hospitals to those of the search, and keeps status, id, user and times |
| `Sos.ContactKeys` | src/lib/sos.ts:79-87 | one key per emergency contact, in order, its id or else its name |
| `Sos.HospitalKeys` | src/lib/sos.ts:99-103 | the keys of the first three hospitals found, or of all when fewer were found, in order, by place id or else name |
| `Sos.NotifiedHospitals` | src/lib/sos.ts:90-107 | no location, or a search that threw: no hospital; otherwise the keys of the first three hospitals found |
| `Sos.AfterHelpRequest` | src/lib/sos.ts:68-120 | a help request changes at most the event it is for |
| `Sos.InactiveEvents` | src/lib/sos.ts:50-61 | the sweep selects only stored events that are active and silent for more than two minutes or never heard from |
| `Sos.ApplyHelpRequests` | src/lib/sos.ts:63-65 | help requests never add or remove events |
| `Sos.SweepSelectsExactly` | src/lib/sos.ts:48-66 | after the sweep each event is escalated exactly when it is active, silent for more than two minutes (or never heard from) and its user exists; every other event is unchanged |
| `Sos.SweepStep` | src/lib/sos.ts:48-66 | sweeping one more event is the sweep of the earlier events followed by the new event's help request when it is inactive |
| `Sos.SweepPreservesValid` | src/lib/sos.ts:109-119 | the sweep keeps ids equal to positions and at most one active event per user |
| `Sos.EscalatedEventIsSelectedAgain` | src/lib/sos.ts:53-61 | an escalated event that stays silent is selected by every later sweep |
| `Sos.AfterResolve` | src/lib/sos.ts:122-133 | the user's active event becomes resolved at now; every other event, the user's own included, is unchanged; no active event: nothing changes |
| `Sos.ResolveLeavesNoActive` | src/lib/sos.ts:122-141 | after resolving, the user has no active event and the store keeps at most one active event per user |
| `Sos.ActivateThenResolve` | src/lib/sos.ts:6-133 | activation followed by resolution leaves the user without an active event |
| `Sos.SilentSessionIsEscalated` | src/lib/sos.ts:48-119 | a session activated at t with no heartbeat is escalated by a sweep three minutes later, stays active, and records every emergency contact |
| `Sos.NotifyContacts` | src/lib/sos.ts:79-87 | one entry per contact in contact order: its id, or its name when it has none |
| `Sos.NotifyHospitals` | src/lib/sos.ts:90-103 | the first three hospitals at most, in order, by place id or name |
| `Sos.SosMonitor.GetActiveSOS` | src/lib/sos.ts:135-141 | the user's active event, or none exactly when the user has none |
| `Sos.SosMonitor.ActivateSOS` | src/lib/sos.ts:6-34 | the store becomes the activation's store, keeps its invariant, and the returned event is the user's active one |
| `Sos.SosMonitor.UpdateSOSActivity` | src/lib/sos.ts:36-46 | the store becomes the heartbeat's store and keeps its invariant |
| `Sos.SosMonitor.RequestHelp` | src/lib/sos.ts:68-120 | the store becomes the help request's store |
| `Sos.SosMonitor.CheckSOSInactivity` | src/lib/sos.ts:48-66 | the loop over the selected events leaves exactly the sweep's store, which keeps its invariant |
| `Sos.SosMonitor.ResolveSOS` | src/lib/sos.ts:122-133 | the store becomes the resolution's store, keeps its invariant, and the user has no active event |
| `Proxy.Route` | src/proxy.ts:4-43 | pass-through exactly when the path has a public prefix or some cookie name is a session name; otherwise a redirect to `/auth/signin` with the path as `callbackUrl` |
| `Proxy.Handle` | src/proxy.ts:45-49 | paths the matcher excludes pass untouched; all others get the proxy's decision |
| `Proxy.PublicRoutesArePrefixes` | src/proxy.ts:8-15 | any extension of a public path is public |
| `Proxy.RedirectTargetPasses` | src/proxy.ts:26-31 | the redirect target is public and passes whatever the cookies, so redirects never loop |
| `Proxy.AdminPagesNeedOnlyACookie` | src/proxy.ts:33-42 | an `/admin` path passes exactly when a session cookie is present; the role plays no part |
| `Proxy.CsrfTokenCountsAsSession` | src/proxy.ts:19-24 | a lone `authjs.csrf-token` cookie counts as a session |
| `Proxy.AuthRoutes` | src/proxy.ts:45-49 | `/api/auth…` never reaches the proxy, and `/auth/signin…` passes |
| `AdminScript.StripQuotes` | scripts/create-default-admin.mjs:27 | a value quoted at both ends loses both quotes; a quote at one end only is dropped from that end; a value with no quote at either end is unchanged; nothing is added |
| `AdminScript.ParseLine` | scripts/create-default-admin.mjs:22-27 | blank lines, comments, lines without `=` and lines with nothing before the first `=` give nothing |
| `AdminScript.ParseLineIgnoresSurroundingSpace` | scripts/create-default-admin.mjs:22 | whitespace around a line does not change how it parses |
| `AdminScript.AssignmentLine` | scripts/create-default-admin.mjs:22-30 | a line `key=value` sets the trimmed key to the trimmed, unquoted value when the key is unset or empty, and changes nothing when it holds a non-empty value |
| `AdminScript.ApplyLinesKeepsSetKeys` | scripts/create-default-admin.mjs:28-30 | a variable already set to a non-empty value is never overridden |
| `AdminScript.ApplyLinesOnlyTouchesParsedKeys` | scripts/create-default-admin.mjs:22-33 | a variable that no parsed line names is unchanged, so no variable is ever removed |
| `AdminScript.EnvLocalWins` | scripts/create-default-admin.mjs:41-42 | a value set by `.env.local` survives loading `.env` |
| `AdminScript.ValueKeepsLaterEquals` | scripts/create-default-admin.mjs:25-27 | the key is the trimmed text before the first `=` and the value the trimmed, unquoted text after it, `=` included |
| `AdminScript.EmptyValueIsReplaced` | scripts/create-default-admin.mjs:28-30 | a variable set to the empty string counts as unset and takes the file's value |
| `AdminScript.QuotedValueIsKept` | scripts/create-default-admin.mjs:27 | a double-quoted value keeps everything between its quotes |
| `AdminScript.NextEnv` | scripts/create-default-admin.mjs:23-31 | the callback's parse-then-set steps give the environment of the one-line fold |
| `AdminScript.SetupScript.LoadLine` | scripts/create-default-admin.mjs:22-33 | one callback call changes the environment exactly as the one-line fold does, and nothing else |
| `AdminScript.SetupScript.LoadEnvFile` | scripts/create-default-admin.mjs:19-37 | the line loop leaves the environment of the line fold; an unreadable file changes nothing |
| `AdminScript.SetupScript.GetMongoClient` | scripts/create-default-admin.mjs:52-65 | no URI: the error and no connection; a cached client is reused; otherwise exactly one new connection is made and cached |
| `AdminScript.SetupScript.CreateDefaultAdmin` | scripts/create-default-admin.mjs:103-124 | no URI: failure and nothing inserted; a user with the default email: reported and nothing inserted; otherwise exactly one admin is appended; at most one connection is opened |
| `AdminScript.SetupScript.Run` | scripts/create-default-admin.mjs:39-46 | `.env.local` is loaded before `.env`; over the loaded environment: no URI gives the error; a user with the default email is reported; otherwise the default admin is created and appended |
| `AdminScript.SecondRunFindsTheAdmin` | scripts/create-default-admin.mjs:103-115 | after a run that created the admin, the next run finds it |
| `AdminRoute.Decide` | src/app/api/admin/create-default-admin/route.ts:17-51 | create iff no admin and no user with the default email; refuse iff admins exist and no user has it; report iff a user has it |
| `AdminRoute.CreatesAtMostOnce` | src/app/api/admin/create-default-admin/route.ts:40-68 | after the route created the admin, the next request reports it |
| `AdminRoute.NoCreationOnceAnAdminExists` | src/app/api/admin/create-default-admin/route.ts:15-38 | with any admin present the route never creates one |
| `AdminRoute.RegularUserWithDefaultEmailBlocksSetup` | src/app/api/admin/create-default-admin/route.ts:41-51 | a regular user holding the default email makes the route report it instead of creating the admin |
| `AdminRoute.UsersCollection.Post` | src/app/api/admin/create-default-admin/route.ts:10-76 | 200, 403 and 201 follow the decision table, and only 201 appends the admin; a failing database gives 500 and no insert; the admin count grows by at most one |
| `OpenRouter.FullUrlIdempotent` | src/lib/openrouter.ts:11-12 | with an `http` base URL every completed URL starts with `http`, and completing it again changes nothing |
| `OpenRouter.UnsetBaseUrlCompletesToHttp` | src/lib/openrouter.ts:134-135 | without `NEXTAUTH_URL` a relative URL is put after `http://localhost:3000`, every completed URL starts with `http`, and completing it again changes nothing |
| `OpenRouter.UrlsOf` | src/lib/openrouter.ts:230 | filtering the attachments by kind yields no more URLs than there are attachments |
| `OpenRouter.AudioStep` | src/lib/openrouter.ts:266-316 | after a recording, successful or not, the last message is the user's; it adds a message exactly when the last one was not the user's, and every earlier message is unchanged |
| `OpenRouter.FailedTranscriptLeavesNote` | src/lib/openrouter.ts:293-316 | a failed transcription appends the failure note to the text of the last user message, replaces its empty text with the failure message, or adds the failure message as a new user message |
| `OpenRouter.BuildRequest` | src/lib/openrouter.ts:320-330 | the request uses the configured model, or the default one, and is the fixed system message followed by the formatted conversation |
| `OpenRouter.RequestKeepsTheConversation` | src/lib/openrouter.ts:218-330 | every message but the last is sent unchanged one place later, every role is kept, and the request has one or two messages more than the conversation |
| `OpenRouter.EarlierMessagesUnchanged` | src/lib/openrouter.ts:264-318 | merging audio keeps every message but the last and every role, and adds at most one message per recording |
| `OpenRouter.AudioAddsAtMostOneMessage` | src/lib/openrouter.ts:264-318 | all recordings together add at most one message, none when a user message is last |
| `OpenRouter.TranscriptEndsLastMessage` | src/lib/openrouter.ts:270-291 | a transcript ends the last message, and an existing user message keeps its text in front of it |
| `OpenRouter.ImageAnalysesEndLastMessage` | src/lib/openrouter.ts:229-258 | the joined analyses end the last user message, which keeps its earlier text; the other messages are unchanged |
| `OpenRouter.ImageStepKeepsEarlier` | src/lib/openrouter.ts:229-258 | the image step keeps the number of messages, every message but the last, and every role |
| `OpenRouter.ImagesNeedAUserMessage` | src/lib/openrouter.ts:231-233 | without a user message at the end, images change nothing |
| `OpenRouter.AnalyseImages` | src/lib/openrouter.ts:235-246 | one analysis per image in order, the failure note where the analysis failed |
| `OpenRouter.MergeAudios` | src/lib/openrouter.ts:264-318 | the loop over the recordings leaves the conversation the audio steps define |
| `OpenRouter.GetDiagnosisFromAI` | src/lib/openrouter.ts:204-355 | no API key: the error and no request; otherwise the built request is sent, and the answer, the apology for an empty answer, or the error is returned |
| `AdminStats.RunLength` | src/app/api/admin/stats/route.ts:46 | a run of non-whitespace is non-empty and maximal |
| `AdminStats.Words` | src/app/api/admin/stats/route.ts:46 | the words are non-empty and contain no whitespace |
| `AdminStats.WordsAreTheNonEmptyPieces` | src/app/api/admin/stats/route.ts:46 | the words are, in order, the non-empty pieces of the text split at every whitespace character |
| `AdminStats.LongWords` | src/app/api/admin/stats/route.ts:46 | every kept word is longer than three characters, and no more words come out than go in |
| `AdminStats.LongWordsCounts` | src/app/api/admin/stats/route.ts:46 | each word longer than three characters is kept as often as it occurs, and no other word is kept |
| `AdminStats.LongWordsAppend` | src/app/api/admin/stats/route.ts:46 | the filter keeps the order: filtering a concatenation concatenates the filtered parts |
| `AdminStats.TallyCounts` | src/app/api/admin/stats/route.ts:47-49 | the tally has exactly the words that occur, each with its number of occurrences |
| `AdminStats.DistinctWords` | src/app/api/admin/stats/route.ts:52 | the keys are the words that occur, each once |
| `AdminStats.TallyStep` | src/app/api/admin/stats/route.ts:47-49 | one more word raises its count by one and becomes the last key exactly when it is new |
| `AdminStats.Entries` | src/app/api/admin/stats/route.ts:52 | one entry per distinct word, with its number of occurrences |
| `AdminStats.AddWords` | src/app/api/admin/stats/route.ts:47-49 | counting one diagnosis's words extends the tally and the key order by those words |
| `AdminStats.CountSymptoms` | src/app/api/admin/stats/route.ts:42-52 | the nested loops give the entries of all counted words of all diagnoses |
| `AdminStats.InsertByCount` | src/app/api/admin/stats/route.ts:53 | inserting adds exactly the one entry |
| `AdminStats.InsertKeepsSorted` | src/app/api/admin/stats/route.ts:53 | inserting into a list ordered by decreasing count keeps it ordered |
| `AdminStats.SortByCount` | src/app/api/admin/stats/route.ts:53 | the sort is a permutation ordered by decreasing count |
| `AdminStats.TopSymptomsCorrect` | src/app/api/admin/stats/route.ts:52-55 | at most ten entries in decreasing count order, each a word that occurs with its true count, and no word left out occurs more often than a listed one |
| `AdminStats.SortedEntries` | src/app/api/admin/stats/route.ts:52-54 | sorting keeps exactly the entries, one per distinct word |
| `AdminStats.EntryIsTrue` | src/app/api/admin/stats/route.ts:52 | every entry is a word that occurs, with its number of occurrences |
| `AdminStats.WordHasEntry` | src/app/api/admin/stats/route.ts:52 | every word that occurs has an entry with its number of occurrences |
| `AdminStats.SymptomsOf` | src/app/api/admin/stats/route.ts:55 | the listed symptoms are exactly the entries' words |
| `AdminStats.Trends` | src/app/api/admin/stats/route.ts:58-74 | seven entries, oldest first on consecutive days ending today, each counting the diagnoses created that day |
| `AdminStats.DaysSplitTheWindow` | src/app/api/admin/stats/route.ts:59-68 | consecutive day counts add up to the count of their whole window |
| `AdminStats.EmptyWindowCountsNothing` | src/app/api/admin/stats/route.ts:66-68 | a window that ends where it starts, or before, counts no diagnosis |
| `AdminStats.TrendsCoverTheWeek` | src/app/api/admin/stats/route.ts:58-74 | the seven trend counts add up to the diagnoses created from six days ago until the end of today |
| `AdminStats.RegularUsersAreNonAdmins` | src/app/api/admin/stats/route.ts:25-27 | total minus admins is exactly the number of users who are not admins, never negative |
| `AdminStats.GetStats` | src/app/api/admin/stats/route.ts:11-133 | no admin session: 401; a failing database: 500; otherwise every figure is its count over the collections, the top symptoms, and each trend day's midnight and count |

## Left out

- Network calls (EMDEX, Pinata, the IPFS gateway, Google Vision, Whisper, OpenRouter) are left out. What each service answered is an input: a map from code, CID or URL to the answer, or a response datatype. A call that throws is a missing key.
- Database calls are in-memory sequences. Ids the database assigns are inputs. ObjectId parsing errors are not modelled.
- A failing database call is an input where the source handles it. The inputs are:
  - `dbFails` in the stats and admin-creation routes;
  - `insertFails` in the verification route;
  - `indexFails` and `historyFails` for the two reads of the verification chain;
  - `insertError` for the index insert of `registerDrugToIPFS`, holding the message of the `Error` it threw.
  A thrown value that is not an `Error`, answered with `An error occurred`, is not modelled.
- `CreateDefaultAdmin` and `Run`: only a missing `MONGODB_URI` fails. A connection or query that throws, which the script reports before exiting with status 1, is not modelled.
- Concurrency is not modelled: the find-then-insert race in `activateSOS` and the race between heartbeat and sweep. Every operation runs alone.
- Calendar arithmetic uses UTC days of 86 400 000 ms. The local time zone and daylight saving time of `setDate`/`setHours` are not modelled.
- Trend days are timestamps (midnights), not `YYYY-MM-DD` strings. Expiry dates are timestamps, not ISO date strings.
- `toLowerCase` lowers ASCII letters only. Unicode case mapping and normalisation are not modelled.
- `AdminStats.TopSymptomsCorrect` does not state where words with equal counts end up. `Object.entries` puts integer-like keys first in numeric order, and inherited keys such as `constructor` break the `|| 0` increment. The model keeps insertion order and a plain dictionary.
- `OpenRouter.AnalyseImage` takes the vision service's finished text. Assembling that text from labels, objects and OCR text is not modelled.
- The `Array.isArray` branches of the audio merge are not modelled. Message contents are always strings there, so those branches never run.
- Text recognition of the uploaded image is an input (`ocrText`). The image upload (`imageUrl`) is not modelled because the handler never sets it.
- The mock delays, console logging and the closing of the database client are not modelled.
- Password hashing is an input function (`hash`) in the setup script and a given hash in the route.
- `src/lib/maps.ts` is not part of this model. The hospital search is an input: a map from location to the hospitals found.
- `OpenRouter.UrlsOf`: its contract bounds only the number of URLs. Which URLs it keeps, and their order, is stated by its definition and used through the lemmas on the merge.
- `IpfsStep` and `DatabaseStep`: among entries with equal creation times the model takes the one inserted last. MongoDB leaves the order of such ties unspecified.
- `LongWords`: lengths count Unicode characters, while JavaScript's `length` counts UTF-16 code units. A word such as `ab😷` has length 4 in the source and is kept; here it has length 3 and is dropped.
