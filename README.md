# OnlyOne Fair — a verified model of the service core

OnlyOne Fair is an app for a booth fair. Booths are run by operators. Participants check in at booths by QR code or by booth code. The app shows how crowded each booth is. Participants write learning records about a booth, tagged with growth keywords. Other participants react to a record with two kinds of resonance: support and shared experience.

This project models the rules of the app in Dafny and proves properties about them.

**Backend service layer.** The relational database is one `Store` class (module `Repositories`). It holds one map per table and one id counter per table. Its `Valid()` predicate collects the schema rules:
- unique session tokens, booth codes, QR tokens and keyword names
- one check-in per (participant, booth)
- one resonance per (record, participant, type)
- ids below their counters
- every foreign reference pointing at an existing row

Each service operation that writes is a `method` on that store. It is specified by:
- what it returns
- what each table becomes, including the error paths, which change nothing
- preserving `Valid()`

Read operations are functions of the store. Each read has lemmas stating what it lists and in what order.

The requirements follow the source code only. Wherever the repository's end-to-end test disagrees with the code, the code is modelled (see "Left out").

The model has these parts:
- **Booths**, `BoothService`: list, detail, create, partial update.
- **Check-ins**, `CheckInService`: by QR token, by booth code, and the caller's own history.
- **Crowd levels**, `CrowdStatusService`: the count of check-ins in a trailing window, and the level from two thresholds. This is the same rule that `BoothService` uses.
- **Keywords**, `KeywordService`: list, create, partial update, soft delete.
- **Learning records**, `LearningRecordService`:
  - create, update and delete, author only; a record that resonances still reference cannot be deleted (the foreign key refuses it)
  - reads by booth and by author
  - the derived resonance counts and the viewer's own resonance types
- **Resonances**, `ResonanceService`: toggling a resonance.
- **Authentication**, `AuthService`: a QR session that creates a booth operator and claims the booth, and onboarding.
- **Request authentication**, `SessionTokenAuthFilter`:
  - bearer-token extraction (the `Authorization: Bearer` scheme of RFC 6750, section 2.1, matched case-sensitively)
  - the development-participant fallback
  - the role-to-authority table
- **Errors**, `GlobalExceptionHandler` and `ApiResponses`: the exception-to-status mapping and the response envelope.

**Client rules:**
- the auth store and its `hasRole` (`AuthStore`), proved to agree with the server's authority table
- the live crowd map (`CrowdStore`) and the level a booth card shows
- the optimistic resonance buttons with their revert (`ResonanceButtons`), related to the server's toggle
- the keyword selector (`KeywordSelector`)
- the booth-list search and keyword chip (`BoothSearch`)
- the nav-path match of the mobile shell (`MobileShellNav`)

`Sequences`, `Sorting` and `Strings` give the stock behaviour the code relies on:
- `filter`
- `ORDER BY`, as a sort proved sorted and a permutation
- `trim`, `toLowerCase`, `startsWith` and `includes`
- code-point string order

Time (`Instant.now()`) and fresh UUIDs are parameters. A fresh token comes with a precondition that no row already holds it.

The crowd-level rule is written once, as `CrowdStatusService.DetermineCrowdLevel`. It models both `determineCrowdLevel` functions (CrowdStatusService.kt:59-65 and BoothService.kt:135-141), which have identical bodies.

## Model

| member | source | states |
|---|---|---|
| ApiResponses.Ok | backend/src/main/kotlin/com/cj/onlyonefair/application/dto/ApiResponse.kt:12 | `ok(d)` is a success envelope carrying `d` and no error |
| ApiResponses.Error | backend/src/main/kotlin/com/cj/onlyonefair/application/dto/ApiResponse.kt:13 | `error(m)` is a failure envelope carrying `m` and no data |
| ApiResponses.EnvelopesDistinct | backend/src/main/kotlin/com/cj/onlyonefair/application/dto/ApiResponse.kt:5-13 | a success envelope is never a failure envelope; each gives back what it was built from |
| GlobalExceptionHandler.JoinFieldErrors | backend/src/main/kotlin/com/cj/onlyonefair/api/advice/GlobalExceptionHandler.kt:44-46 | no field errors join to the empty text, one joins to its own `field: message` |
| GlobalExceptionHandler.JoinFieldErrorsAppend | backend/src/main/kotlin/com/cj/onlyonefair/api/advice/GlobalExceptionHandler.kt:44-46 | one more field error adds `, ` and its `field: message` to the end |
| GlobalExceptionHandler.Handle | backend/src/main/kotlin/com/cj/onlyonefair/api/advice/GlobalExceptionHandler.kt:18-67 | every handler answers with a failure envelope; 404 exactly for not-found kinds, 400 exactly for argument and validation errors, 403 exactly for access denied, 500 exactly for state errors and everything else |
| GlobalExceptionHandler.HandledMessages | backend/src/main/kotlin/com/cj/onlyonefair/api/advice/GlobalExceptionHandler.kt:23-66 | a missing message becomes `Resource not found`, `Invalid request` or `Access denied`; validation says `Validation failed: ` and the joined field errors; 500 always says `Internal server error` |
| GlobalExceptionHandler.HandledStatuses | backend/src/main/kotlin/com/cj/onlyonefair/api/advice/GlobalExceptionHandler.kt:18-67 | the only statuses produced are 400, 403, 404 and 500 |
| Common.GetOr | backend/src/main/kotlin/com/cj/onlyonefair/api/advice/GlobalExceptionHandler.kt:23 | Kotlin's `?:`: the value when present, the default otherwise |
| Common.Decimal | backend/src/main/kotlin/com/cj/onlyonefair/application/service/BoothService.kt:95 | the decimal text of a number is non-empty, made of digits only, denotes the number, and starts with 0 only for 0 (no leading zeros) |
| Domain.ResonanceTypeNameInjective | backend/src/main/kotlin/com/cj/onlyonefair/domain/model/Resonance.kt:9 | the two resonance types have different names |
| Domain.KeywordResponses | backend/src/main/kotlin/com/cj/onlyonefair/application/service/BoothService.kt:143-156 | the keywords of a response are exactly the existing keywords among the entity's ids, with their names |
| Repositories.Select | backend/src/main/kotlin/com/cj/onlyonefair/domain/repository/BoothRepository.kt:7 | a filtered read lists exactly the rows that satisfy the filter, each once, in key order |
| Repositories.Schema | backend/src/main/kotlin/com/cj/onlyonefair/domain/model/Resonance.kt:9-22 | the database's constraints together: generated keys below their counters, every unique column and unique constraint, and every non-null foreign key pointing at an existing row; each write method keeps it |
| Repositories.Store.Valid | backend/src/main/kotlin/com/cj/onlyonefair/domain/model/Resonance.kt:9-22 | the store's current contents satisfy Schema; every writing service method requires and ensures it |
| Repositories.KeysBelow | backend/src/main/kotlin/com/cj/onlyonefair/domain/model/Participant.kt:9-10 | every key of a table was handed out by its IDENTITY counter, so the next key is fresh |
| Repositories.UniqueSessionTokens | backend/src/main/kotlin/com/cj/onlyonefair/domain/model/Participant.kt:13 | `session_token` is unique: two participants with one token are the same row |
| Repositories.UniqueBoothCodes | backend/src/main/kotlin/com/cj/onlyonefair/domain/model/Booth.kt:13 | booth `code` is unique |
| Repositories.UniqueQrTokens | backend/src/main/kotlin/com/cj/onlyonefair/domain/model/Booth.kt:41 | booth `qr_token` is unique |
| Repositories.UniqueKeywordNames | backend/src/main/kotlin/com/cj/onlyonefair/domain/model/GrowthKeyword.kt:13 | keyword `name` is unique |
| Repositories.OneCheckInPerPair | backend/src/main/kotlin/com/cj/onlyonefair/domain/model/CheckIn.kt:9 | the unique constraint on (participant_id, booth_id) |
| Repositories.OneResonancePerTriple | backend/src/main/kotlin/com/cj/onlyonefair/domain/model/Resonance.kt:9 | the unique constraint on (record_id, participant_id, type) |
| Repositories.BoothReferences | backend/src/main/kotlin/com/cj/onlyonefair/domain/model/Booth.kt:18-20 | a booth's operator, when set, and its keywords exist |
| Repositories.CheckInReferences | backend/src/main/kotlin/com/cj/onlyonefair/domain/model/CheckIn.kt:15-21 | a check-in's participant and booth exist |
| Repositories.RecordReferences | backend/src/main/kotlin/com/cj/onlyonefair/domain/model/LearningRecord.kt:13-33 | a record's author, booth and keywords exist |
| Repositories.ResonanceReferences | backend/src/main/kotlin/com/cj/onlyonefair/domain/model/Resonance.kt:16-22 | a resonance's record and participant exist |
| Repositories.Store.InsertParticipant | backend/src/main/kotlin/com/cj/onlyonefair/domain/repository/ParticipantRepository.kt:6 | `save` of a new participant: stored under the counter's key, the counter advances, and the other rows stay |
| Repositories.Store.InsertBooth | backend/src/main/kotlin/com/cj/onlyonefair/domain/repository/BoothRepository.kt:6 | `save` of a new booth: stored under the counter's key, the counter advances, and the other rows stay |
| Repositories.Store.InsertCheckIn | backend/src/main/kotlin/com/cj/onlyonefair/domain/repository/CheckInRepository.kt:8 | `save` of a new check-in: stored under the counter's key, the counter advances, and the other rows stay |
| Repositories.Store.InsertKeyword | backend/src/main/kotlin/com/cj/onlyonefair/domain/repository/GrowthKeywordRepository.kt:6 | `save` of a new keyword: stored under the counter's key, the counter advances, and the other rows stay |
| Repositories.Store.InsertRecord | backend/src/main/kotlin/com/cj/onlyonefair/domain/repository/LearningRecordRepository.kt:6 | `save` of a new record: stored under the counter's key, the counter advances, and the other rows stay |
| Repositories.Store.InsertResonance | backend/src/main/kotlin/com/cj/onlyonefair/domain/repository/ResonanceRepository.kt:7 | `save` of a new resonance: stored under the counter's key, the counter advances, and the other rows stay |
| Repositories.Store.DeleteRecord | backend/src/main/kotlin/com/cj/onlyonefair/application/service/LearningRecordService.kt:72 | `delete` of a record: exactly that key leaves the table |
| Repositories.Store.DeleteResonance | backend/src/main/kotlin/com/cj/onlyonefair/application/service/ResonanceService.kt:30 | `delete` of a resonance: exactly that key leaves the table |
| Repositories.Query | backend/src/main/kotlin/com/cj/onlyonefair/domain/repository/BoothRepository.kt:7 | an ordered read lists exactly the matching rows, each once, sorted by the ordering |
| Repositories.FindFirst | backend/src/main/kotlin/com/cj/onlyonefair/domain/repository/BoothRepository.kt:8 | a lookup finds a matching row, and finds none exactly when no row matches |
| Repositories.ByCodeIsTotalPreorder | backend/src/main/kotlin/com/cj/onlyonefair/domain/repository/BoothRepository.kt:7 | ordering booths by code is total and transitive |
| Repositories.TimeOrdersAreTotalPreorders | backend/src/main/kotlin/com/cj/onlyonefair/domain/repository/CheckInRepository.kt:10 | newest-first and sort-order orderings are total and transitive |
| Repositories.ActiveBoothsByCode | backend/src/main/kotlin/com/cj/onlyonefair/domain/repository/BoothRepository.kt:7 | exactly the active booths, each once, in ascending code order |
| Repositories.FindBoothByCode | backend/src/main/kotlin/com/cj/onlyonefair/domain/repository/BoothRepository.kt:8 | the booth with that code, none exactly when no booth has it |
| Repositories.FindBoothByQrToken | backend/src/main/kotlin/com/cj/onlyonefair/domain/repository/BoothRepository.kt:9 | the booth with that QR token, none exactly when no booth has it |
| Repositories.BoothCodeExists | backend/src/main/kotlin/com/cj/onlyonefair/domain/repository/BoothRepository.kt:10 | true exactly when some booth has the code |
| Repositories.FindParticipantBySessionToken | backend/src/main/kotlin/com/cj/onlyonefair/domain/repository/ParticipantRepository.kt:7 | the participant with that token, none exactly when no participant has it |
| Repositories.CheckInExists | backend/src/main/kotlin/com/cj/onlyonefair/domain/repository/CheckInRepository.kt:9 | true exactly when the pair has a check-in |
| Repositories.CheckInsOfParticipant | backend/src/main/kotlin/com/cj/onlyonefair/domain/repository/CheckInRepository.kt:10 | exactly the participant's check-ins, each once, newest first |
| Repositories.RecentCheckIns | backend/src/main/kotlin/com/cj/onlyonefair/domain/repository/CheckInRepository.kt:12-13 | exactly the booth's check-ins at or after the window start |
| Repositories.CountByBoothSince | backend/src/main/kotlin/com/cj/onlyonefair/domain/repository/CheckInRepository.kt:12-13 | one entry per booth that has a recent check-in, holding the number of them |
| Repositories.ActiveKeywordsBySortOrder | backend/src/main/kotlin/com/cj/onlyonefair/domain/repository/GrowthKeywordRepository.kt:7 | exactly the active keywords, each once, by ascending sort order |
| Repositories.KeywordNameExists | backend/src/main/kotlin/com/cj/onlyonefair/domain/repository/GrowthKeywordRepository.kt:8 | true exactly when some keyword, active or not, has the name |
| Repositories.FindAllKeywordsById | backend/src/main/kotlin/com/cj/onlyonefair/application/service/BoothService.kt:69-73 | the existing keywords among the requested ids; unknown ids are dropped |
| Repositories.RecordsOfBooth | backend/src/main/kotlin/com/cj/onlyonefair/domain/repository/LearningRecordRepository.kt:7 | exactly the booth's records, each once, newest first |
| Repositories.RecordsOfParticipant | backend/src/main/kotlin/com/cj/onlyonefair/domain/repository/LearningRecordRepository.kt:8 | exactly the participant's records, each once, newest first |
| Repositories.FindResonance | backend/src/main/kotlin/com/cj/onlyonefair/domain/repository/ResonanceRepository.kt:8-12 | a row of the (record, participant, type) triple, none exactly when there is no such row |
| Repositories.ResonancesOfType | backend/src/main/kotlin/com/cj/onlyonefair/domain/repository/ResonanceRepository.kt:14 | exactly the keys of the record's resonances of the type, the rows `countByRecordIdAndType` counts |
| Repositories.CountResonances | backend/src/main/kotlin/com/cj/onlyonefair/domain/repository/ResonanceRepository.kt:14 | the number of the record's resonances of the type |
| SessionTokenAuthFilter.BearerToken | backend/src/main/kotlin/com/cj/onlyonefair/infrastructure/config/SessionTokenAuthFilter.kt:28-29 | a token exactly when the header starts with `Bearer ` (case-sensitive), and the header is that prefix followed by the token |
| SessionTokenAuthFilter.BearerRoundTrip | frontend/src/lib/api.ts:20 | the client's `Bearer ${token}` header yields the token back |
| SessionTokenAuthFilter.NoPrefixNoToken | backend/src/main/kotlin/com/cj/onlyonefair/infrastructure/config/SessionTokenAuthFilter.kt:28-29 | a header shorter than 7 characters or with another prefix yields no token |
| SessionTokenAuthFilter.AuthoritiesByRank | backend/src/main/kotlin/com/cj/onlyonefair/infrastructure/config/SessionTokenAuthFilter.kt:36-49 | a role's authorities hold `ROLE_x` exactly for the roles x not above it |
| SessionTokenAuthFilter.AuthoritiesNested | backend/src/main/kotlin/com/cj/onlyonefair/infrastructure/config/SessionTokenAuthFilter.kt:36-49 | the authority sets are nested in role order |
| SessionTokenAuthFilter.Authorities | backend/src/main/kotlin/com/cj/onlyonefair/infrastructure/config/SessionTokenAuthFilter.kt:36-49 | lists a role's authorities; its contract is AuthoritiesByRank (`ROLE_x` exactly for the roles x not above it, and nothing else) and AuthoritiesNested |
| SessionTokenAuthFilter.WithDev | backend/src/main/kotlin/com/cj/onlyonefair/infrastructure/config/SessionTokenAuthFilter.kt:63-73 | the fallback reuses a participant with the development token, or adds the development administrator under the next id |
| SessionTokenAuthFilter.WithDevIdempotent | backend/src/main/kotlin/com/cj/onlyonefair/infrastructure/config/SessionTokenAuthFilter.kt:64-65 | a second fallback finds the first one's participant and changes nothing |
| SessionTokenAuthFilter.AnonymousIsAdmin | backend/src/main/kotlin/com/cj/onlyonefair/infrastructure/config/SessionTokenAuthFilter.kt:63-73 | a request without a known token authenticates as the development ADMIN and gets `ROLE_ADMIN` |
| SessionTokenAuthFilter.GetOrCreateDevParticipant | backend/src/main/kotlin/com/cj/onlyonefair/infrastructure/config/SessionTokenAuthFilter.kt:63-73 | the participant table becomes what the fallback yields, and the store stays well-formed |
| SessionTokenAuthFilter.DoFilter | backend/src/main/kotlin/com/cj/onlyonefair/infrastructure/config/SessionTokenAuthFilter.kt:20-61 | every request ends authenticated as an existing participant with that role's authorities; a known bearer token picks its participant and changes nothing, anything else falls back to the development participant |
| AuthService.NewOperator | backend/src/main/kotlin/com/cj/onlyonefair/application/service/AuthService.kt:26-30 | the new participant holds the fresh token, is a BOOTH_OPERATOR named after the booth, and is not onboarded |
| AuthService.ResponseOf | backend/src/main/kotlin/com/cj/onlyonefair/application/service/AuthService.kt:39-44 | the response mirrors the participant's token, role, onboarding flag and name |
| AuthService.Claimed | backend/src/main/kotlin/com/cj/onlyonefair/application/service/AuthService.kt:33-37 | a booth without an operator gets the new participant; an existing operator is kept; nothing else changes |
| AuthService.ClaimedOnce | backend/src/main/kotlin/com/cj/onlyonefair/application/service/AuthService.kt:33-37 | a later claim never displaces the first operator |
| AuthService.CreateSessionFromQr | backend/src/main/kotlin/com/cj/onlyonefair/application/service/AuthService.kt:20-45 | an unknown QR token fails with an argument error and changes nothing; otherwise exactly one new operator participant is added, the booth is claimed, and the response mirrors the participant |
| AuthService.QrSessionKeepsSchema | backend/src/main/kotlin/com/cj/onlyonefair/application/service/AuthService.kt:20-45 | a QR session keeps unique tokens, unique booth codes and QR tokens, and every reference valid |
| AuthService.GetParticipant | backend/src/main/kotlin/com/cj/onlyonefair/application/service/AuthService.kt:48-50 | a participant exactly when one holds the token, and that one holds it |
| AuthService.SessionTokenIdentifies | backend/src/main/kotlin/com/cj/onlyonefair/domain/model/Participant.kt:13-14 | in a well-formed store a session token identifies its participant |
| AuthService.AuthErrorStatuses | backend/src/main/kotlin/com/cj/onlyonefair/application/service/AuthService.kt:21-22 | an unknown QR token is answered 400; an unknown participant 404 with its message |
| AuthService.OnboardedOnlyFlag | backend/src/main/kotlin/com/cj/onlyonefair/application/service/AuthService.kt:52-59 | onboarding sets only that participant's flag, keeps every other participant, and is idempotent |
| AuthService.OnboardedKeepsSchema | backend/src/main/kotlin/com/cj/onlyonefair/application/service/AuthService.kt:52-59 | onboarding keeps the participant table well-formed |
| AuthService.CompleteOnboarding | backend/src/main/kotlin/com/cj/onlyonefair/application/service/AuthService.kt:52-59 | an unknown id fails with not-found and changes nothing; otherwise the participant table becomes the onboarded one |
| AuthStore.AuthState.constructor | frontend/src/stores/authStore.ts:15-26 | the state starts from the stored token and participant, authenticated exactly when a non-empty token was stored |
| AuthStore.AuthState.SetSession | frontend/src/stores/authStore.ts:28-32 | the token and participant are stored and the state is authenticated |
| AuthStore.AuthState.ClearSession | frontend/src/stores/authStore.ts:34-38 | token and participant are cleared and the state is not authenticated |
| AuthStore.AuthState.UpdateOnboardingDone | frontend/src/stores/authStore.ts:40-47 | no participant stays no participant; otherwise only `onboardingDone` becomes true |
| AuthStore.RoleIncludes | frontend/src/stores/authStore.ts:52-54 | ADMIN has every role, BOOTH_OPERATOR every role but ADMIN, PARTICIPANT only PARTICIPANT |
| AuthStore.RoleIncludesAgreesWithAuthorities | frontend/src/stores/authStore.ts:49-55 | the client grants a role exactly when the server's authorities for the held role contain it |
| AuthStore.HasRoleAgreesWithAuthorities | frontend/src/stores/authStore.ts:49-55 | no participant has no role; a participant's `hasRole` is the server's authority test |
| AuthStore.AuthState.HasRole | frontend/src/stores/authStore.ts:49-55 | `hasRole`; its contract is HasRoleAgreesWithAuthorities: false without a participant, otherwise the server's authority test for the held role |
| CrowdStatusService.Severity | backend/src/main/kotlin/com/cj/onlyonefair/application/service/CrowdStatusService.kt:59-65 | LOW, MEDIUM and HIGH rank 0, 1 and 2 |
| CrowdStatusService.CrowdLevelBands | backend/src/main/kotlin/com/cj/onlyonefair/application/service/CrowdStatusService.kt:59-65 | HIGH iff count >= high; MEDIUM iff medium <= count < high; LOW iff count below both |
| CrowdStatusService.DetermineCrowdLevel | backend/src/main/kotlin/com/cj/onlyonefair/application/service/CrowdStatusService.kt:59-65 | computes the level of a count; its contract is CrowdLevelBands (the three bands), CrowdLevelMonotone (more check-ins never lower the level) and DefaultThresholds |
| CrowdStatusService.CrowdLevelMonotone | backend/src/main/kotlin/com/cj/onlyonefair/application/service/CrowdStatusService.kt:59-65 | with medium <= high a larger count never gives a lower level |
| CrowdStatusService.DefaultThresholds | backend/src/main/kotlin/com/cj/onlyonefair/application/service/CrowdStatusService.kt:21-23 | the defaults put 9 at LOW, 10 and 24 at MEDIUM, 25 at HIGH, and the window at 30 minutes |
| CrowdStatusService.WindowStart | backend/src/main/kotlin/com/cj/onlyonefair/application/service/CrowdStatusService.kt:28 | the window starts no later than `now` |
| CrowdStatusService.CrowdDataMap | backend/src/main/kotlin/com/cj/onlyonefair/application/service/BoothService.kt:124-133 | each listed booth maps to the number of its check-ins in the window |
| CrowdStatusService.CrowdCount | backend/src/main/kotlin/com/cj/onlyonefair/application/service/CrowdStatusService.kt:40 | a booth's count is the number of its check-ins in the window, 0 when it has none |
| CrowdStatusService.StatusOf | backend/src/main/kotlin/com/cj/onlyonefair/application/service/CrowdStatusService.kt:42-47 | an entry carries its booth's id and code, its window count, and the level of that count |
| CrowdStatusService.Statuses | backend/src/main/kotlin/com/cj/onlyonefair/application/service/CrowdStatusService.kt:39-48 | one entry per booth row, in the same order, each as the booth's status |
| CrowdStatusService.ComputeCurrentStatus | backend/src/main/kotlin/com/cj/onlyonefair/application/service/CrowdStatusService.kt:27-51 | one entry per active booth in code order, each with the booth's id, code, window count and level |
| CrowdStatusService.CurrentStatusOnlyActive | backend/src/main/kotlin/com/cj/onlyonefair/application/service/CrowdStatusService.kt:37-48 | every entry is an active booth with its current code |
| CrowdStatusService.CurrentStatusOnce | backend/src/main/kotlin/com/cj/onlyonefair/application/service/CrowdStatusService.kt:37-48 | no booth has two entries |
| CrowdStatusService.CurrentStatusByCode | backend/src/main/kotlin/com/cj/onlyonefair/domain/repository/BoothRepository.kt:7 | entries come in ascending code order |
| CrowdStatusService.CurrentStatusCoversActiveBooths | backend/src/main/kotlin/com/cj/onlyonefair/application/service/CrowdStatusService.kt:37-48 | every active booth has an entry |
| CrowdStatusService.QuietBoothIsLow | backend/src/main/kotlin/com/cj/onlyonefair/application/service/CrowdStatusService.kt:40-41 | a booth without a check-in in the window has count 0, and level LOW when both thresholds are positive |
| CrowdStore.LevelsOfKeys | frontend/src/stores/crowdStore.ts:11-17 | after a broadcast the map's keys are exactly the broadcast's booth ids |
| CrowdStore.LevelsOfLastWins | frontend/src/stores/crowdStore.ts:13-15 | each booth id maps to the level and count of its last entry |
| CrowdStore.LevelsOf | frontend/src/stores/crowdStore.ts:11-17 | the map a broadcast becomes; its contract is LevelsOfKeys (keys are exactly the broadcast's booth ids) and LevelsOfLastWins (each id holds its last entry) |
| CrowdStore.CrowdState.constructor | frontend/src/stores/crowdStore.ts:10 | the map starts empty |
| CrowdStore.CrowdState.UpdateLevels | frontend/src/stores/crowdStore.ts:11-17 | the loop leaves the map equal to the broadcast's map, dropping previous entries |
| CrowdStore.DisplayedLevel | frontend/src/components/booth/BoothCard.tsx:17-19 | a card shows the live level when the booth is in the map, the listed level otherwise |
| CrowdStore.DisplayedAfterBroadcast | frontend/src/components/booth/BoothCard.tsx:17-19 | after a broadcast a listed booth shows the level of its last entry |
| CrowdStore.DisplayedWhenUnlisted | frontend/src/components/booth/BoothCard.tsx:17-19 | a booth the broadcast does not list shows its listed level |
| BoothService.ListResponses | backend/src/main/kotlin/com/cj/onlyonefair/application/service/BoothService.kt:33-50 | one list response per booth row, in order |
| BoothService.ListResponse | backend/src/main/kotlin/com/cj/onlyonefair/application/service/BoothService.kt:37-48 | an entry carries the booth's id, code, name and location, the responses of exactly its existing keywords, the check-ins of the current window, and the level band that count falls in |
| BoothService.ListAgreesWithDetail | backend/src/main/kotlin/com/cj/onlyonefair/application/service/BoothService.kt:37-48 | the list entry and the detail of one booth built from the same window report the same booth, keywords, count and level |
| BoothService.DetailResponse | backend/src/main/kotlin/com/cj/onlyonefair/application/service/BoothService.kt:143-156 | `toDetailResponse`; its contract is ListAgreesWithDetail (agrees with the list entry) and Domain.KeywordResponses (exactly the existing keywords of the booth) |
| BoothService.GetActiveBooths | backend/src/main/kotlin/com/cj/onlyonefair/application/service/BoothService.kt:33-50 | the active booths in code order, each with its id, code, name, location, the responses of exactly its existing keywords, its window count and crowd level |
| BoothService.ActiveBoothsAgreeWithCrowdStatus | backend/src/main/kotlin/com/cj/onlyonefair/application/service/BoothService.kt:33-50 | the booth list and the crowd status agree entry by entry on id, code, count and level |
| BoothService.GetBoothById | backend/src/main/kotlin/com/cj/onlyonefair/application/service/BoothService.kt:53-62 | not found exactly for an unknown id; any booth, active or not, with every text field and location copied, the responses of exactly its existing keywords, and its crowd count and level |
| BoothService.NewBooth | backend/src/main/kotlin/com/cj/onlyonefair/application/service/BoothService.kt:69-87 | the caller operates the new booth, it is active, keeps the fresh QR token, and has exactly the existing requested keywords |
| BoothService.CreateBooth | backend/src/main/kotlin/com/cj/onlyonefair/application/service/BoothService.kt:64-91 | a taken code fails with an argument error and adds nothing; otherwise exactly the new booth is added and reported at LOW with count 0 |
| BoothService.AddBoothKeepsSchema | backend/src/main/kotlin/com/cj/onlyonefair/domain/model/Booth.kt:13-14 | adding a booth with a fresh code and QR token keeps codes and tokens unique and references valid |
| BoothService.Overwrite | backend/src/main/kotlin/com/cj/onlyonefair/application/service/BoothService.kt:102-110 | a given value replaces the field; a missing one leaves the field exactly as it was |
| BoothService.PatchedBooth | backend/src/main/kotlin/com/cj/onlyonefair/application/service/BoothService.kt:101-112 | every given field overwrites and every missing one keeps its value; given keyword ids replace the set; code, QR token, activity and operator never change |
| BoothService.PatchIdempotent | backend/src/main/kotlin/com/cj/onlyonefair/application/service/BoothService.kt:101-112 | applying the same edit twice is applying it once |
| BoothService.EmptyPatchIsIdentity | backend/src/main/kotlin/com/cj/onlyonefair/application/service/BoothService.kt:101-112 | an edit with no fields leaves the booth as it is |
| BoothService.PatchNeverClears | backend/src/main/kotlin/com/cj/onlyonefair/application/service/BoothService.kt:102-110 | an edit never clears a present text field |
| BoothService.ReplaceBoothKeepsSchema | backend/src/main/kotlin/com/cj/onlyonefair/domain/model/Booth.kt:13-14 | an edit keeps codes and QR tokens unique and references valid |
| BoothService.UpdateBooth | backend/src/main/kotlin/com/cj/onlyonefair/application/service/BoothService.kt:93-122 | unknown id fails with not-found, a caller who is not the operator (also when there is none) fails with a state error, both changing nothing; otherwise only that booth becomes the patched booth |
| CheckInService.ToResponse | backend/src/main/kotlin/com/cj/onlyonefair/application/service/CheckInService.kt:59-66 | the response carries the row's id, method and time and its booth's id, code and name |
| CheckInService.PerformCheckIn | backend/src/main/kotlin/com/cj/onlyonefair/application/service/CheckInService.kt:40-57 | the check-in table changes as the check-in relation says and the store stays well-formed |
| CheckInService.CheckInByQr | backend/src/main/kotlin/com/cj/onlyonefair/application/service/CheckInService.kt:20-25 | an unknown QR token fails with an argument error and inserts nothing; otherwise a QR check-in at that booth |
| CheckInService.CheckInByCode | backend/src/main/kotlin/com/cj/onlyonefair/application/service/CheckInService.kt:27-32 | an unknown code fails with not-found and inserts nothing; otherwise a MANUAL check-in at that booth |
| CheckInService.CheckedInOutcome | backend/src/main/kotlin/com/cj/onlyonefair/application/service/CheckInService.kt:41-47 | a check-in succeeds exactly when the booth is active and the pair has none; a failure changes nothing, and inactivity is reported first |
| CheckInService.CheckedInAdds | backend/src/main/kotlin/com/cj/onlyonefair/application/service/CheckInService.kt:49-56 | a success adds exactly one row under a fresh id, keeps all others, keeps one check-in per pair, and reports the booth's id, code, name and the method |
| CheckInService.CheckedIn | backend/src/main/kotlin/com/cj/onlyonefair/application/service/CheckInService.kt:40-57 | the outcome relation of a check-in; its contract is CheckedInOutcome (success exactly for an active booth and a new pair) and CheckedInAdds (one fresh row, nothing else changed) |
| CheckInService.CheckInErrorStatuses | backend/src/main/kotlin/com/cj/onlyonefair/api/advice/GlobalExceptionHandler.kt:61-67 | bad QR token gives 400, unknown code 404, and an inactive booth or a repeat check-in 500 `Internal server error` |
| CheckInService.AddCheckInKeepsSchema | backend/src/main/kotlin/com/cj/onlyonefair/domain/model/CheckIn.kt:9 | adding a check-in for a pair without one keeps one check-in per pair and valid references |
| CheckInService.AddCheckInKeepsPairs | backend/src/main/kotlin/com/cj/onlyonefair/domain/model/CheckIn.kt:9 | adding a check-in for a new pair keeps one check-in per pair |
| CheckInService.ToResponses | backend/src/main/kotlin/com/cj/onlyonefair/application/service/CheckInService.kt:35-38 | one response per row, in order, each with its row's and booth's data |
| CheckInService.GetMyCheckIns | backend/src/main/kotlin/com/cj/onlyonefair/application/service/CheckInService.kt:35-38 | exactly the participant's check-ins, each once, newest first, with their booth's id, code and name, method and time |
| CheckInService.ListsCheckInsOf | backend/src/main/kotlin/com/cj/onlyonefair/application/service/CheckInService.kt:35-38 | what `getMyCheckIns` must return: every check-in of the participant once and no other, newest first, each with its booth's id, code and name, method and time; GetMyCheckIns and ResponsesMirrorRows prove it holds |
| CheckInService.ResponsesMirrorRows | backend/src/main/kotlin/com/cj/onlyonefair/application/service/CheckInService.kt:35-38 | responses that mirror the participant's sorted rows list exactly those check-ins |
| KeywordService.ResponseOf | backend/src/main/kotlin/com/cj/onlyonefair/application/service/KeywordService.kt:68-72 | the response carries the keyword's id and both names |
| KeywordService.ResponsesOf | backend/src/main/kotlin/com/cj/onlyonefair/application/service/KeywordService.kt:19-22 | one response per keyword row, in order |
| KeywordService.GetActiveKeywords | backend/src/main/kotlin/com/cj/onlyonefair/application/service/KeywordService.kt:19-22 | exactly the active keywords, each once, by sort order, with their names |
| KeywordService.ResponsesMirrorRows | backend/src/main/kotlin/com/cj/onlyonefair/application/service/KeywordService.kt:19-22 | responses that mirror the sorted active rows list exactly the active keywords |
| KeywordService.ListsActiveKeywords | backend/src/main/kotlin/com/cj/onlyonefair/application/service/KeywordService.kt:19-22 | what `getActiveKeywords` must return; GetActiveKeywords and ResponsesMirrorRows prove it holds: exactly the active keywords, each once, in sort order |
| KeywordService.NewKeyword | backend/src/main/kotlin/com/cj/onlyonefair/application/service/KeywordService.kt:29-35 | a created keyword has the requested names, is active, and has sort order 0 unless one is given |
| KeywordService.Create | backend/src/main/kotlin/com/cj/onlyonefair/application/service/KeywordService.kt:24-37 | a name used by any keyword, active or not, fails with an argument error and adds nothing; otherwise exactly the new keyword is added |
| KeywordService.AddKeywordKeepsSchema | backend/src/main/kotlin/com/cj/onlyonefair/domain/model/GrowthKeyword.kt:13-14 | adding a keyword with an unused name keeps names unique |
| KeywordService.PatchedKeyword | backend/src/main/kotlin/com/cj/onlyonefair/application/service/KeywordService.kt:49-53 | every given field overwrites, every missing one keeps its value |
| KeywordService.RenameClashes | backend/src/main/kotlin/com/cj/onlyonefair/application/service/KeywordService.kt:43-48 | a clash exactly when a new name differs from the current one and is used already |
| KeywordService.PatchKeepsUniqueNames | backend/src/main/kotlin/com/cj/onlyonefair/domain/model/GrowthKeyword.kt:13-14 | an edit that passes the name check keeps names unique |
| KeywordService.NameTakenBy | backend/src/main/kotlin/com/cj/onlyonefair/application/service/KeywordService.kt:43-48 | after an accepted edit no other keyword has the new name; keeping the own name is accepted |
| KeywordService.Update | backend/src/main/kotlin/com/cj/onlyonefair/application/service/KeywordService.kt:39-57 | unknown id fails with not-found, a clashing rename with an argument error, both changing nothing; otherwise only that keyword becomes the patched one |
| KeywordService.Deactivated | backend/src/main/kotlin/com/cj/onlyonefair/application/service/KeywordService.kt:59-66 | deleting only clears the active flag |
| KeywordService.DeactivateKeepsUniqueNames | backend/src/main/kotlin/com/cj/onlyonefair/domain/model/GrowthKeyword.kt:13-14 | deleting keeps names unique |
| KeywordService.Delete | backend/src/main/kotlin/com/cj/onlyonefair/application/service/KeywordService.kt:59-66 | unknown id fails with not-found and changes nothing; otherwise the keyword stays in the table, inactive |
| KeywordService.DeleteIdempotent | backend/src/main/kotlin/com/cj/onlyonefair/application/service/KeywordService.kt:59-66 | deleting twice is deleting once; the keyword stays in the table and leaves the active list |
| KeywordService.UpdateReactivates | backend/src/main/kotlin/com/cj/onlyonefair/application/service/KeywordService.kt:52 | an edit with `isActive = true` brings a deleted keyword back |
| LearningRecordService.ViewerNamesMembers | backend/src/main/kotlin/com/cj/onlyonefair/application/service/LearningRecordService.kt:103-104 | a type is named exactly when the viewer has a row of it on the record |
| LearningRecordService.MyResonancesNames | backend/src/main/kotlin/com/cj/onlyonefair/application/service/LearningRecordService.kt:103-104 | `myResonances` names a type exactly when the viewer has that resonance on the record |
| LearningRecordService.MyResonancesDistinct | backend/src/main/kotlin/com/cj/onlyonefair/application/service/LearningRecordService.kt:103-104 | with one row per triple `myResonances` has no repeated name |
| LearningRecordService.MyResonancesAtMostTwo | backend/src/main/kotlin/com/cj/onlyonefair/application/service/LearningRecordService.kt:103-104 | `myResonances` has at most 2 entries |
| LearningRecordService.MyResonances | backend/src/main/kotlin/com/cj/onlyonefair/application/service/LearningRecordService.kt:103-104 | `myResonances`; its contract is MyResonancesNames (a type is named exactly when the viewer holds it), MyResonancesDistinct and MyResonancesAtMostTwo |
| LearningRecordService.ResponseFields | backend/src/main/kotlin/com/cj/onlyonefair/application/service/LearningRecordService.kt:99-126 | the response carries the record, its booth's and author's names, exactly its existing keywords, the resonance count of each type, and the viewer's types |
| LearningRecordService.ResponseFor | backend/src/main/kotlin/com/cj/onlyonefair/application/service/LearningRecordService.kt:99-126 | `toResponse`; its contract is ResponseFields (record, booth and author names, keywords, exact per-type counts and the viewer's names) |
| LearningRecordService.CountsCoverViewer | backend/src/main/kotlin/com/cj/onlyonefair/application/service/LearningRecordService.kt:100-104 | a type in `myResonances` is counted at least once |
| LearningRecordService.ResponsesFor | backend/src/main/kotlin/com/cj/onlyonefair/application/service/LearningRecordService.kt:81-82 | one response per record row, in order |
| LearningRecordService.GetByBooth | backend/src/main/kotlin/com/cj/onlyonefair/application/service/LearningRecordService.kt:76-83 | an unknown booth fails exactly with not-found; otherwise the booth's records |
| LearningRecordService.BoothRecordsListed | backend/src/main/kotlin/com/cj/onlyonefair/application/service/LearningRecordService.kt:76-83 | only records of the booth are listed, each as its response |
| LearningRecordService.BoothRecordsComplete | backend/src/main/kotlin/com/cj/onlyonefair/application/service/LearningRecordService.kt:76-83 | every record of the booth is listed |
| LearningRecordService.BoothRecordsNewestFirst | backend/src/main/kotlin/com/cj/onlyonefair/application/service/LearningRecordService.kt:76-83 | the list is newest first |
| LearningRecordService.BoothRecordsOnce | backend/src/main/kotlin/com/cj/onlyonefair/application/service/LearningRecordService.kt:76-83 | no record is listed twice |
| LearningRecordService.BoothRecords | backend/src/main/kotlin/com/cj/onlyonefair/application/service/LearningRecordService.kt:76-83 | exactly the booth's records, each once, newest first, each as its response; the four BoothRecords lemmas state this |
| LearningRecordService.AuthorRecordsListed | backend/src/main/kotlin/com/cj/onlyonefair/application/service/LearningRecordService.kt:86-89 | only the caller's records are listed, each as its response |
| LearningRecordService.AuthorRecordsComplete | backend/src/main/kotlin/com/cj/onlyonefair/application/service/LearningRecordService.kt:86-89 | every record of the caller is listed |
| LearningRecordService.AuthorRecordsNewestFirst | backend/src/main/kotlin/com/cj/onlyonefair/application/service/LearningRecordService.kt:86-89 | the caller's list is newest first |
| LearningRecordService.AuthorRecordsOnce | backend/src/main/kotlin/com/cj/onlyonefair/application/service/LearningRecordService.kt:86-89 | no record of the caller is listed twice |
| LearningRecordService.AuthorRecords | backend/src/main/kotlin/com/cj/onlyonefair/application/service/LearningRecordService.kt:86-89 | exactly the author's records, each once, newest first, each as its response; the four AuthorRecords lemmas state this |
| LearningRecordService.GetMyRecords | backend/src/main/kotlin/com/cj/onlyonefair/application/service/LearningRecordService.kt:86-89 | exactly the caller's own records, each once, newest first, each as the caller sees it; it is AuthorRecords with the caller as author and viewer |
| LearningRecordService.GetById | backend/src/main/kotlin/com/cj/onlyonefair/application/service/LearningRecordService.kt:92-97 | not found exactly for an unknown id; otherwise that record's response |
| LearningRecordService.NewRecord | backend/src/main/kotlin/com/cj/onlyonefair/application/service/LearningRecordService.kt:31-38 | the caller is the author, booth and content are as requested, keywords are exactly the existing requested ones |
| LearningRecordService.Create | backend/src/main/kotlin/com/cj/onlyonefair/application/service/LearningRecordService.kt:27-42 | an unknown booth fails with not-found and adds nothing; otherwise exactly the new record is added, with no check on activity or a prior check-in |
| LearningRecordService.PatchedRecord | backend/src/main/kotlin/com/cj/onlyonefair/application/service/LearningRecordService.kt:52-57 | given content overwrites, given keyword ids replace the set, booth, author and time never change |
| LearningRecordService.PatchRecordIdempotent | backend/src/main/kotlin/com/cj/onlyonefair/application/service/LearningRecordService.kt:52-57 | applying the same edit twice is applying it once |
| LearningRecordService.Update | backend/src/main/kotlin/com/cj/onlyonefair/application/service/LearningRecordService.kt:44-62 | unknown id fails with not-found, a caller who is not the author with a state error, both changing nothing; otherwise only that record becomes the patched one |
| LearningRecordService.Delete | backend/src/main/kotlin/com/cj/onlyonefair/application/service/LearningRecordService.kt:64-73 | unknown id fails with not-found, a non-author with a state error, a record that resonances reference with the foreign-key failure, all changing nothing; otherwise exactly that record is removed |
| LearningRecordService.HasResonances | backend/src/main/kotlin/com/cj/onlyonefair/domain/model/Resonance.kt:16-18 | true exactly when some resonance row references the record, which the non-null, non-cascading foreign key then protects from deletion |
| LearningRecordService.RecordStillReferencedStatus | backend/src/main/kotlin/com/cj/onlyonefair/api/advice/GlobalExceptionHandler.kt:61-67 | the refused delete reaches the catch-all handler: status 500 and `Internal server error` |
| ResonanceService.Toggled | backend/src/main/kotlin/com/cj/onlyonefair/application/service/ResonanceService.kt:23-51 | an existing triple's row is deleted and reported untoggled; a missing one is inserted under the next id and reported toggled |
| ResonanceService.Toggle | backend/src/main/kotlin/com/cj/onlyonefair/application/service/ResonanceService.kt:19-52 | an unknown record fails with not-found and changes nothing; otherwise the table becomes the toggled one |
| ResonanceService.ToggledTablesKeepSchema | backend/src/main/kotlin/com/cj/onlyonefair/domain/model/Resonance.kt:9 | a toggle keeps the whole store well-formed |
| ResonanceService.ToggleFlipsTriple | backend/src/main/kotlin/com/cj/onlyonefair/application/service/ResonanceService.kt:29-51 | the set of triples gains or loses exactly the toggled triple |
| ResonanceService.ToggleKeepsSchema | backend/src/main/kotlin/com/cj/onlyonefair/domain/model/Resonance.kt:9 | a toggle keeps one row per (record, participant, type) |
| ResonanceService.ToggleLeavesOthers | backend/src/main/kotlin/com/cj/onlyonefair/application/service/ResonanceService.kt:23-27 | rows of other triples are neither changed nor removed, and only the new row appears |
| ResonanceService.ToggleTwiceRestores | backend/src/main/kotlin/com/cj/onlyonefair/application/service/ResonanceService.kt:29-51 | toggling the same triple twice restores the set of triples and flips `toggled` |
| ResonanceService.TogglePresence | backend/src/main/kotlin/com/cj/onlyonefair/application/service/ResonanceService.kt:29-38 | `toggled` is true exactly when the triple was absent |
| ResonanceService.InsertKeepsOneResonancePerTriple | backend/src/main/kotlin/com/cj/onlyonefair/domain/model/Resonance.kt:9 | inserting a missing triple keeps one row per triple |
| ResonanceButtons.WithCount | frontend/src/components/learning/ResonanceButtons.tsx:36-41 | only the clicked type's counter changes |
| ResonanceButtons.ClickWhileLoading | frontend/src/components/learning/ResonanceButtons.tsx:29 | a click while a request is pending changes nothing |
| ResonanceButtons.ClickFlips | frontend/src/components/learning/ResonanceButtons.tsx:31-44 | a click flips its own highlight, moves its counter by one (down to no less than 0), leaves the other button alone and marks the request pending |
| ResonanceButtons.Clicked | frontend/src/components/learning/ResonanceButtons.tsx:29-44 | the state after a click; its contract is ClickWhileLoading (ignored while pending) and ClickFlips (the own highlight flips, its counter moves by one, the other button stays) |
| ResonanceButtons.Settled | frontend/src/components/learning/ResonanceButtons.tsx:51-74 | the state when the request ends; its contract is SettledSuccessKeeps, FailedClickRestores, FailedClickKeepsOtherNames and FailedClickOnInactiveIsUndone |
| ResonanceButtons.SettledSuccessKeeps | frontend/src/components/learning/ResonanceButtons.tsx:51-60 | a successful request keeps the optimistic state, `toggled` unread, and ends pending |
| ResonanceButtons.FailedClickRestores | frontend/src/components/learning/ResonanceButtons.tsx:61-74 | a failed click restores both highlights and the other counter; the clicked counter comes back too, except 0 withdrawn ends at 1 |
| ResonanceButtons.FailedClickKeepsOtherNames | frontend/src/components/learning/ResonanceButtons.tsx:61-71 | a failed click keeps the number of occurrences of every other name |
| ResonanceButtons.FailedClickOnInactiveIsUndone | frontend/src/components/learning/ResonanceButtons.tsx:61-71 | a failed click on an inactive button restores the exact state |
| ResonanceButtons.OptimisticAgreesWithServer | frontend/src/components/learning/ResonanceButtons.tsx:34-42 | starting from the server's `myResonances`, the highlight after a click is on exactly when the server's toggle reports `toggled` |
| ResonanceButtons.WithdrawIsExact | frontend/src/components/learning/ResonanceButtons.tsx:36-37 | starting from the server's counts, a withdrawal never hits the zero clamp |
| ResonanceButtons.ResonanceButtonsView.constructor | frontend/src/components/learning/ResonanceButtons.tsx:22-25 | the state starts from the record's counts and types, nothing pending |
| ResonanceButtons.ResonanceButtonsView.Click | frontend/src/components/learning/ResonanceButtons.tsx:27-44 | the new state is the clicked state; a request goes out exactly when none is pending |
| ResonanceButtons.ResonanceButtonsView.Settle | frontend/src/components/learning/ResonanceButtons.tsx:61-74 | the new state is the settled state |
| KeywordSelector.ToggleSelected | frontend/src/components/learning/KeywordSelector.tsx:46-47 | a selected id is removed everywhere; the rest keep their order and multiplicity |
| KeywordSelector.ToggleUnselected | frontend/src/components/learning/KeywordSelector.tsx:48-49 | an unselected id is appended at the end |
| KeywordSelector.ToggleTwiceRestores | frontend/src/components/learning/KeywordSelector.tsx:45-51 | toggling an absent id twice gives back the original list |
| KeywordSelector.ToggleTwiceMovesToEnd | frontend/src/components/learning/KeywordSelector.tsx:45-51 | toggling a present id twice moves it to the end, once |
| KeywordSelector.Toggle | frontend/src/components/learning/KeywordSelector.tsx:45-51 | `toggleKeyword`; its contract is ToggleSelected, ToggleUnselected, ToggleTwiceRestores and ToggleTwiceMovesToEnd |
| BoothSearch.FilteredIsOneFilter | frontend/src/app/booths/page.tsx:46-65 | the two filters together are one filter by the combined condition |
| BoothSearch.FilteredBoothsSpec | frontend/src/app/booths/page.tsx:46-65 | the result is a subsequence of the list holding exactly the matching booths, each as often as sent |
| BoothSearch.FilteredBooths | frontend/src/app/booths/page.tsx:46-65 | the booths shown; its contract is FilteredBoothsSpec (exactly the matching booths, in order, each as often as sent), NoFilterListsAll and FilterOrderIrrelevant |
| BoothSearch.NoFilterListsAll | frontend/src/app/booths/page.tsx:49-62 | a blank search with no chip lists every booth |
| BoothSearch.FilterOrderIrrelevant | frontend/src/app/booths/page.tsx:46-65 | filtering by keyword first gives the same list |
| BoothSearch.SearchIgnoresCase | frontend/src/app/booths/page.tsx:53-54 | names and codes that agree once lower-cased match the same queries |
| BoothSearch.SearchTextCaseIrrelevant | frontend/src/app/booths/page.tsx:49-50 | two search texts that trim and lower-case alike list the same booths |
| BoothSearch.ChipClicked | frontend/src/app/booths/page.tsx:98-101 | clicking the selected chip clears it, any other chip becomes the selection |
| BoothSearch.ChipClickedTwice | frontend/src/app/booths/page.tsx:98-101 | two clicks on a chip leave it selected exactly when it was before |
| MobileShellNav.ActiveBelow | frontend/src/components/layout/MobileShell.tsx:32-33 | an item is active on its own path and on any path below it |
| MobileShellNav.SiblingNotActive | frontend/src/components/layout/MobileShell.tsx:32-33 | a path that extends the href without a slash is not active |
| MobileShellNav.ActiveSecondChar | frontend/src/components/layout/MobileShell.tsx:32-33 | an active path shares the href's second character |
| MobileShellNav.AtMostOneActive | frontend/src/components/layout/MobileShell.tsx:10-14 | with the three nav hrefs at most one item is active |
| MobileShellNav.IsActive | frontend/src/components/layout/MobileShell.tsx:32-33 | the active-item test; its contract is ActiveBelow, SiblingNotActive, ActiveSecondChar and AtMostOneActive |
| Sorting.SortBy | backend/src/main/kotlin/com/cj/onlyonefair/domain/repository/BoothRepository.kt:7 | `ORDER BY`: the result is sorted and a permutation of the input |
| Sequences.Filter | frontend/src/app/booths/page.tsx:51-61 | `Array.filter`: keeps exactly the matching elements with their multiplicity |
| Sequences.FilterIsSubsequence | frontend/src/app/booths/page.tsx:51-61 | a filtered list is a subsequence of the original |
| Sequences.FilterCommutes | frontend/src/app/booths/page.tsx:46-65 | two filters commute |
| Sequences.RemoveAll | frontend/src/components/learning/KeywordSelector.tsx:47 | filtering out a value removes it and keeps the multiplicity of every other value |
| Strings.Trim | frontend/src/app/booths/page.tsx:49-50 | `trim()`: the result is a slice of the input with only whitespace before and after it, and it neither starts nor ends with whitespace |
| Strings.TrimEmptyIffBlank | frontend/src/app/booths/page.tsx:49 | the trimmed search is empty exactly when the search is blank |
| Strings.ToLower | frontend/src/app/booths/page.tsx:50 | `toLowerCase()` maps each ASCII letter to lower case and keeps every other character |
| Strings.ToLowerIdempotent | frontend/src/app/booths/page.tsx:50 | lower-casing twice is lower-casing once |
| Strings.LexLeTotal | backend/src/main/kotlin/com/cj/onlyonefair/domain/repository/BoothRepository.kt:7 | code order is total |
| Strings.LexLeTransitive | backend/src/main/kotlin/com/cj/onlyonefair/domain/repository/BoothRepository.kt:7 | code order is transitive |
| Strings.LexLeAntisymmetric | backend/src/main/kotlin/com/cj/onlyonefair/domain/repository/BoothRepository.kt:7 | code order is antisymmetric |

## Left out

- The clock and UUID generation are not modelled. `now` and freshly generated tokens are parameters. `CreateSessionFromQr` and `CreateBooth` require that no row already holds the new session token or QR token. This stands in for the uniqueness of a random UUID.
- The `updatedAt` stamps of edited rows are not modelled, nor is the `lastActiveAt` stamp that onboarding refreshes (AuthService.kt:57). Only the `checkedInAt` and `createdAt` values that reads order by are kept.
- String order follows code points (`Strings.LexLe`). The database's collation for `ORDER BY code` is not modelled.
- Among rows with equal sort keys (equal `sortOrder` or equal timestamps), the order of a read is not specified. The model proves only that the result is sorted by the key and holds each matching row once.
- Integers are unbounded. The Kotlin `Long`-to-`Int` conversion of a check-in count (CrowdStatusService.kt:33) cannot wrap in the model.
- `toLowerCase` and `trim` are modelled for ASCII letters and the JavaScript whitespace set. Full Unicode case mapping is not modelled.
- The database's own message for a refused record delete (a record that resonances still reference) is not modelled. The model returns the catch-all exception `Other(None)`, which the handler answers with 500 and `Internal server error` whatever its message.
- The periodic broadcast of the crowd status over WebSocket (`broadcastCrowdStatus`) and the STOMP client are I/O. Only the payload computation is modelled. `CrowdSnapshot` is written and read nowhere, so it is not part of this model.
- Controllers, Spring Security configuration, CORS and bean validation annotations are framework configuration and are not modelled. The validation error message itself is modelled.
- Persistence of the auth store in `localStorage` is not modelled. Only the in-memory state is.
- The `timestamp` field of the response envelope comes from the clock and is not modelled.
- The keywords of a response (`LearningRecordResponse.keywords`, and those of booth responses) are a set. Their order in JSON is not modelled.
- ResonanceButtons.ResonanceButtonsView.Settle: the reconcile block after a successful request (ResonanceButtons.tsx:52-60) has empty branches. It is modelled as not reading the server's `toggled` flag at all.
- The mobile shell hides the nav when the user is not authenticated (MobileShell.tsx:28). That is rendering and is not modelled. Only the `isActive` path rule is.
- Logging and all React rendering are not modelled.
- The end-to-end test disagrees with the code in two places, and the code is modelled in both.
  - E2ETest.kt:80 expects role `PARTICIPANT` after a QR session. AuthService.kt:28 creates a `BOOTH_OPERATOR` (`AuthService.NewOperator`).
  - E2ETest.kt:267 expects status 400 for a repeated check-in. CheckInService.kt:46 throws `IllegalStateException`, which only the generic branch at GlobalExceptionHandler.kt:61-67 handles, so the status is 500 (`CheckInService.CheckInErrorStatuses`).
