# Evidence registry, modelled in Dafny

This project models the core of a chain-of-custody evidence registry for
law-enforcement users. Users sign in with a wallet address and get a role
(admin, officer or public) from two fixed allow-lists. Officers submit
evidence records: a case id, a SHA-256 digest of the file, a content
reference and descriptive metadata. The server shows each user the records
they may see. The model covers these parts:

- the in-memory store, with its shared id counter and its visibility rule
  (`storage.dfy`, a class over a user map and an ordered evidence list);
- the connect handshake and role gate (`auth.dfy`);
- the evidence endpoints (`routes.dfy`);
- the request validators and enums (`schema.dfy`, over a small JSON value
  type in `json.dfy`);
- the client-side pieces that compute something: the upload pipeline and
  its hex encoder (`upload_form.dfy`), the tracker filter
  (`evidence_tracker.dfy`), the administrator's edit dialog
  (`evidence_management.dfy`), the onboarding card (`wallet_onboarding.dfy`),
  the keyword classifier (`ai_analysis.dfy`), the status badge
  (`evidence_card.dfy`) and the registration dialog
  (`registration_dialog.dfy`).

`text.dfy`, `seqs.dfy` and `wrappers.dfy` hold helpers: ASCII
lower-casing, substring search, an order-keeping filter and `Option`.

Three facts about the code shape the model:

- User keys are case-sensitive. The store keeps and looks up the address as
  typed; the address is lower-cased only to pick a role
  (`Auth.LookupIsCaseSensitive`, `Auth.SpellingsShareRole`).
- Any signed-in user may submit evidence, whatever the role
  (`Routes.AnyRoleMaySubmit`).
- There are no review states on the server. Status is set only by the
  submitter's body: no server route accepts the edit form's PATCH or the
  DELETE. The last-login update calls a store method that does not exist
  (finding 1).

## Model

| member | source | states |
|---|---|---|
| Schema.ParseRole | shared/schema.ts:92-93 | a role parses exactly when it is one of the three `UserRole` names, and gives back the role of that name |
| Schema.ParseStatus | shared/schema.ts:84-88 | a status parses exactly when it is one of pending/approved/rejected |
| Schema.ParsePriority | shared/schema.ts:67 | a priority parses exactly when it is one of low/medium/high |
| Schema.EnumsAreThreeValued | shared/schema.ts:76-88 | each enum has three distinct names, and parsing a name gives back its value |
| Schema.ParseMetadata | shared/schema.ts:37-46 | metadata is accepted iff description has at least 10 characters, fileName and fileType are non-empty, fileSize is at least 1, timestamp is a string, and each optional field is absent or a string; the accepted fields are copied, and location, deviceInfo and additionalNotes are present exactly when their key is, with its text |
| Schema.MetadataRoundTrip | shared/schema.ts:37-46 | well-formed metadata, written as JSON, parses back to itself |
| Schema.ParseInsertEvidence | shared/schema.ts:59-69 | a body is accepted iff caseId, submittedBy, fileHash and ipfsHash are non-empty strings, the metadata is valid, status and priority are absent or enum names, transactionHash is a string or null, and tags are absent or strings; an absent status becomes pending and an absent priority becomes medium; transactionHash is the string or nothing for null; tags are present exactly when the key is, with the same strings in order |
| Storage.SeesAllOnlyAdmin | server/storage.ts:48 | the admin-or-"cbi" test holds exactly for admins, because no role is named "cbi" |
| Storage.MemStorage.constructor | server/storage.ts:21-28 | a new store is empty and its counter starts at 1 |
| Storage.MemStorage.GetUser | server/storage.ts:30-32 | a lookup finds a user exactly when the address, as typed, is a key, and that user has that address |
| Storage.MemStorage.CreateUser | server/storage.ts:34-38 | the new user gets the old counter value, which was never issued before; the counter grows by one; the address key is set and may overwrite; evidence is unchanged; the store invariant holds |
| Storage.MemStorage.CreateEvidence | server/storage.ts:40-44 | the new record gets a fresh id from the same counter and is appended after all earlier records; users are unchanged; the store invariant holds |
| Storage.MemStorage.GetEvidence | server/storage.ts:46-51 | an admin gets every record; anyone else gets exactly the records they submitted; the result keeps the stored order, is a subsequence of the store, and holds each visible record as many times as the store does |
| Storage.VisibleTo | server/storage.ts:47-50 | an admin sees every record; anyone else sees a record exactly when they submitted it |
| Storage.IdsAreUnique | server/storage.ts:19-44 | under the store invariant, no two users and no two records share an id, no user shares an id with a record, and every id is below the counter |
| Auth.AssignRole | server/auth.ts:67-71 | admin iff the lower-cased address is on the admin list; officer iff it is on the officer list and not the admin list; public otherwise |
| Auth.AssignRoleIgnoresCase | server/auth.ts:62-71 | an address and its lower-case form get the same role |
| Auth.ConfiguredAdminIsAdmin | server/auth.ts:24-27 | the configured admin address is an admin in any letter case |
| Auth.NewUser | server/auth.ts:73-83 | a registered user gets the assigned role and isRegistered; a given name or department is kept, otherwise the role-based defaults are used ("Central Bureau" for admins, "Police Department" otherwise); a given badge is kept as typed, otherwise it is "CBI" for admins or "PD" for others plus a number; email is copied; both dates are the current time |
| Auth.PlanConnect | server/auth.ts:50-94 | a falsy address is refused with 400 before anything else; a walletconnect address not on the admin list is refused with 403; a known address is a returning user; an unknown address is registered iff a registration is present and otherwise asked to register; a walletconnect registration is always an admin |
| Auth.Response | server/auth.ts:91-97 | as written, only a registration logs in; a returning user ends in an unhandled exception |
| Auth.ResponseIntended | server/auth.ts:91-97 | a registration and a returning user both log in, the latter as the stored user |
| Auth.Connect | server/auth.ts:49-98 | the handler's answer, user table, counter and session equal those the plan gives; evidence is unchanged; the store invariant holds |
| Auth.ReturningUserNeverLogsIn | server/auth.ts:91-97 | as written, reconnecting a stored address never logs in |
| Auth.RegisterThenReconnect | server/auth.ts:61-97 | with the intended answer: a new address is asked to register, then registers and logs in, then reconnects as the same user |
| Auth.SpellingsShareRole | server/auth.ts:62-71 | two addresses equal letter for letter up to case get the same role |
| Auth.LookupIsCaseSensitive | server/auth.ts:61-64 | a user stored as "0xAB" who connects as "0xab" is asked to register again |
| Auth.RequireRole | server/auth.ts:120-129 | 401 iff there is no user, 403 iff the user's role is not listed, pass iff it is |
| Routes.Stamp | server/routes.ts:17-20 | the stored submitter is the session user's address and every other field is the parsed body's |
| Routes.PostEvidence | server/routes.ts:10-25 | without a session user the answer is 401; a body the schema refuses gives 400; in both cases the store is unchanged; otherwise the parsed record, stamped with the user's address, is appended with a fresh id |
| Routes.ParseSubmission | server/routes.ts:16-20 | with the submitter inserted before validation, the result always carries the session's submitter and agrees with the as-written parse wherever that one accepts |
| Routes.PostEvidenceIntended | server/routes.ts:10-25 | the same handler, validating the body with the submitter already set |
| Routes.ListEvidence | server/routes.ts:27-34 | 401 iff there is no session user; otherwise exactly the store's filtered list |
| Routes.AnyRoleMaySubmit | server/routes.ts:10-25 | for a session user of any role, public included, a body the schema accepts is stored, stamped with the user's address |
| Routes.OwnRecordsOnly | server/routes.ts:27-33 | a record an officer submits is listed for that officer and for an admin, but not for another officer |
| UploadForm.HexEncode | client/src/components/evidence/upload-form.tsx:36-38 | n bytes give 2n characters, each a lower-case hex digit |
| UploadForm.ByteHexDigits | client/src/components/evidence/upload-form.tsx:37 | a byte becomes its high and low nibble digits, zero-padded to two |
| UploadForm.HexRoundTrip | client/src/components/evidence/upload-form.tsx:36-38 | decoding the hex in pairs gives back the bytes |
| UploadForm.HexInjective | client/src/components/evidence/upload-form.tsx:36-38 | different byte strings have different hex encodings |
| UploadForm.ParseUpload | client/src/components/evidence/upload-form.tsx:14-18 | the form is accepted iff the case id is non-empty, the description has at least 10 characters and a file is chosen |
| UploadForm.UploadMetadata | client/src/components/evidence/upload-form.tsx:41-47 | the file's name, size and type are copied into the metadata, with the description and the current time |
| UploadForm.UploadBody | client/src/components/evidence/upload-form.tsx:52-59 | the body carries the case id, status "pending", the content reference, the digest, the metadata and the chain transaction, but no submittedBy, no priority and no tags |
| UploadForm.Submit | client/src/components/evidence/upload-form.tsx:29-62 | steps run as upload, hash, anchor, post; the upload and the hash get the chosen file; a failed upload, hash or anchor stops every later step; the anchor and the post get the same content reference, and the post gets the hex digest of the file |
| UploadForm.UploadBodyRejected | client/src/components/evidence/upload-form.tsx:52-59 | as written, the server's schema refuses every body the form sends |
| UploadForm.UploadBodyAccepted | client/src/components/evidence/upload-form.tsx:52-59 | with the submitter taken from the session before validation, the form's body is accepted as a pending, medium-priority record with the same digest, content reference and metadata |
| EvidenceTracker.FilteredEvidence | client/src/pages/evidence-tracker.tsx:24-28 | a record is kept iff its lower-cased case id contains the lower-cased search and the status choice is "all" or its status; the result keeps the order and holds each kept record as many times as the input does |
| EvidenceTracker.InitialFilterShowsAll | client/src/pages/evidence-tracker.tsx:16-28 | an empty search with "all" shows every record in order |
| EvidenceTracker.FilterTwice | client/src/pages/evidence-tracker.tsx:24-28 | filtering twice is the same as filtering once |
| EvidenceTracker.SearchIgnoresCase | client/src/pages/evidence-tracker.tsx:25 | searching for a text and for its lower-case form shows the same records |
| EvidenceManagement.ParseEdit | client/src/components/evidence/evidence-management.tsx:17-21 | the edit form is accepted iff the case id is non-empty, the description has at least 10 characters and the status is one of the three names |
| EvidenceManagement.Defaults | client/src/components/evidence/evidence-management.tsx:39-43 | the form starts from the record's case id, description and status |
| EvidenceManagement.DefaultsOfStoredEvidenceValidate | client/src/components/evidence/evidence-management.tsx:37-44 | the defaults of a record the server accepted pass the edit schema unchanged |
| EvidenceManagement.AnyStatusSelectable | client/src/components/evidence/evidence-management.tsx:20 | from any current status, each of the three statuses is accepted |
| EvidenceManagement.MergeDescription | client/src/components/evidence/evidence-management.tsx:50-53 | the merged metadata has the old keys plus description; description is the new text and every other key keeps its value |
| EvidenceManagement.CanManage | client/src/components/evidence/evidence-management.tsx:96 | the controls are shown exactly to the callers the server's admin-only gate would pass, and they all see every record |
| EvidenceManagement.PatchBody | client/src/components/evidence/evidence-management.tsx:48-54 | the body has exactly the keys caseId, description, status and metadata: the form's case id and description, the status name, which parses back to the chosen status, and the merged metadata |
| EvidenceManagement.PatchMetadataReplacesDescription | client/src/components/evidence/evidence-management.tsx:50-53 | the metadata sent, read by the server's metadata schema, is the stored metadata with only the description changed |
| EvidenceManagement.Handle | client/src/components/evidence/evidence-management.tsx:96-198 | a non-admin's action sends nothing and changes nothing; a PATCH is sent iff an admin saves a valid form; a DELETE is sent iff an admin confirms in the open confirmation; every request targets the record's id |
| EvidenceManagement.ConfirmStep | client/src/components/evidence/evidence-management.tsx:160-191 | for an admin, the confirmation is open after an action only if the action asked to delete, or it was open and the action did not cancel |
| EvidenceManagement.ConfirmOpenAfterAsk | client/src/components/evidence/evidence-management.tsx:160-191 | the confirmation is open only for an admin, after a request to delete that no cancel has followed |
| EvidenceManagement.DeleteNeedsConfirmation | client/src/components/evidence/evidence-management.tsx:173-198 | a DELETE is only sent for an admin, after a request to delete |
| WalletOnboarding.StepAfter | client/src/components/onboarding/wallet-onboarding.tsx:38-44 | the step stays between 0 and the last page |
| WalletOnboarding.Onboarding.constructor | client/src/components/onboarding/wallet-onboarding.tsx:36 | the card starts at step 0 without having connected |
| WalletOnboarding.Onboarding.NextStep | client/src/components/onboarding/wallet-onboarding.tsx:38-44 | on the last page it calls onConnect and stays; elsewhere it moves on by exactly one page without calling onConnect; the step stays within the pages |
| WalletOnboarding.StepAfterIs | client/src/components/onboarding/wallet-onboarding.tsx:38-44 | after n presses the step is min(n, 2) |
| WalletOnboarding.ConnectsAfterIs | client/src/components/onboarding/wallet-onboarding.tsx:38-44 | after n presses onConnect has fired max(0, n - 2) times |
| WalletOnboarding.FirstConnectOnThirdPress | client/src/components/onboarding/wallet-onboarding.tsx:38-44 | the first onConnect comes with the third press |
| WalletOnboarding.StepNeverDecreases | client/src/components/onboarding/wallet-onboarding.tsx:38-44 | more presses never show an earlier page |
| WalletOnboarding.ThreePresses | client/src/components/onboarding/wallet-onboarding.tsx:13-44 | three presses on a fresh card turn two pages and connect once |
| AiAnalysis.ClassifyDescription | client/src/lib/ai-analysis.ts:34-48 | theft/stolen gives theft; otherwise assault/attack gives violent crime; otherwise fraud/scam gives financial crime; otherwise general; risk is high iff violent crime and low iff general |
| AiAnalysis.ClassifyIgnoresCase | client/src/lib/ai-analysis.ts:34-48 | `Classify` reads only the record's description: records whose descriptions agree up to case are classified alike |
| AiAnalysis.TheftBeforeAssault | client/src/lib/ai-analysis.ts:39-44 | a description with both "theft" and "assault" is a theft of medium risk |
| AiAnalysis.UpperCaseKeyword | client/src/lib/ai-analysis.ts:34-41 | a description holding "theft" in any letter case at any position is a theft of medium risk |
| EvidenceCard.StatusColor | client/src/components/evidence/evidence-card.tsx:14-21 | the colour is one of the four badge classes |
| EvidenceCard.StatusIcon | client/src/components/evidence/evidence-card.tsx:23-30 | the clock, check and cross icons are shown exactly for the lower-cased texts that parse as pending, approved and rejected; any other text has no icon |
| EvidenceCard.StatusBadges | client/src/components/evidence/evidence-card.tsx:14-30 | pending, approved and rejected in any case give yellow/clock, green/check and red/cross; the colour is grey iff there is no icon iff the text names no status |
| EvidenceCard.StoredStatusHasBadge | client/src/components/evidence/evidence-card.tsx:14-30 | every stored status has a colour other than grey and an icon |
| EvidenceCard.BadgeIgnoresCase | client/src/components/evidence/evidence-card.tsx:14-30 | colour and icon do not depend on letter case |
| EvidenceCard.Preview | client/src/components/evidence/evidence-card.tsx:49 | the preview is the prefix of length min(10, length) |
| RegistrationDialog.ParseRegistration | client/src/components/auth/registration-dialog.tsx:16-21 | accepted iff name and department have at least two characters and an e-mail, when given, passes the e-mail check; badge and e-mail are optional |
| RegistrationDialog.UntouchedFormRejected | client/src/components/auth/registration-dialog.tsx:34-40 | the empty defaults are refused |
| RegistrationDialog.ConnectBody | client/src/hooks/use-auth.tsx:34-37 | the connect request carries the wallet address only: no provider and no registration, whatever the form held |
| RegistrationDialog.OnSubmit | client/src/components/auth/registration-dialog.tsx:42-45 | nothing is called for refused values; otherwise connect is called first and onClose follows only if connect resolved |
| RegistrationDialog.OnSubmitIntended | client/src/components/auth/registration-dialog.tsx:42-45 | the same sequence with the registration data in the connect request |
| RegistrationDialog.ToRegistration | client/src/components/auth/registration-dialog.tsx:42-43 | the server's registration object carries the typed name and department, the badge or nothing, and a non-empty e-mail |
| RegistrationDialog.RegistrationNeverReachesServer | client/src/hooks/use-auth.tsx:33-38 | as written, a new wallet that completes the dialog is asked to register again and the dialog stays open |
| RegistrationDialog.RegistrationRegisters | client/src/components/auth/registration-dialog.tsx:42-45 | with the data passed on, the wallet is registered under the typed name and department, logged in, and the dialog closes |

## Left out

- Sessions are an explicit optional user. Cookies, `express-session`, the session store, logout, `GET /api/user` and the middleware that copies the session user are not part of the model.
- `storage.updateUserLastLogin` is defined nowhere in the store, so it is not modelled. `Auth.Connect` models the call as the exception it raises (finding 1).
- Clocks and randomness are parameters: the current time (`now`) and the random badge suffix (`serial`).
- Time is a `nat`. The upload form's ISO timestamp is an opaque string.
- The content upload, the chain anchor and the file read with its SHA-256 are parameters of `UploadForm.Submit`. Each either gives its answer or rejects; SHA-256 itself is not computed.
- The model has no web3 provider, network, wallet or deployment script.
- JSON numbers are integers; floating point is not modelled.
- `Math.random` fields, the delay, the insights and `getCrimeAnalytics` of the analysis mock are not modelled.
- Letter case is ASCII only. Unicode `toLowerCase` is not modelled.
- Strings are sequences of characters, not UTF-16 code units.
- Zod's e-mail validator is an abstract predicate `isEmail`.
- Zod's removal of unknown keys is implicit, since parsed values are records.
- `insertUserSchema` is never applied to a user in the code. The model keeps the role restriction in the `Role` type and does not model drizzle's generated part.
- The other evidence columns (`createdAt`, `aiAnalysis`, `assignedTo`, `reviewedBy`, `reviewDate`) are never set by the store and are not modelled. A stored record is its id plus the validated insert.
- The edit dialog's requests are modelled only as the requests it sends. The server has no PATCH or DELETE route, and neither is modelled.
- Toasts, cache invalidation, the disabled state of buttons while a request is pending, icons, animation and layout are presentation and are not modelled.
- The registration dialog's `address` prop is unused by the code. The wallet address that `connectWithMetaMask` obtains is a parameter.
- `apiRequest` is taken to reject on any answer that is not a 2xx status, so a refused connect never resolves and never closes the registration dialog. Its definition is not part of this model.
- The `Unhandled` refusal of `Auth.Connect` models only the missing answer of a handler that throws. What a rejected handler promise does to the server process is not modelled. It may end the process and lose the in-memory store and every session.
- Each request handler runs atomically. The interleaving of concurrent handlers at their `await` points is not modelled.
- `Auth.Registration` stores a missing or falsy registration field as the empty string. Non-string values in the payload are not modelled.

## Findings

| source | as written | input that shows it | evidently intended | confidence | as-written member | corrected member |
|---|---|---|---|---|---|---|
| server/auth.ts:93 | a returning user's connect calls `storage.updateUserLastLogin`, which the store (server/storage.ts:15-52) does not define, so the handler throws before setting the session | a second connect from an address that registered earlier | update the last-login time and log the stored user in | not executed | Auth.ReturningUserNeverLogsIn | Auth.RegisterThenReconnect |
| shared/schema.ts:61 | the insert schema requires a non-empty `submittedBy`, which the route overwrites only after validation and the upload form never sends | any upload from the form, whose body has no `submittedBy` key | take the submitter from the session, so the form's body is accepted | not executed | UploadForm.UploadBodyRejected | UploadForm.UploadBodyAccepted |
| client/src/hooks/use-auth.tsx:72 | `connectWithMetaMask` takes no argument and posts only the address, so the registration dialog's data never reaches the server | a new wallet submitting the dialog with name "Ann Lee" and department "Homicide" | post the registration data with the address, so the wallet is registered | not executed | RegistrationDialog.RegistrationNeverReachesServer | RegistrationDialog.RegistrationRegisters |
