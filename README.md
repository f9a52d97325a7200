# UmaPctService, modelled in Dafny

This project models the persisted claims token (PCT) service of oxAuth's UMA server,
`UmaPctService`. A PCT is a server-side record that accumulates identity claims across the
steps of an UMA authorization flow. The service does four things:
- merges claims into a PCT when a new assertion arrives (`updateClaims`);
- creates, persists, looks up and removes PCT records under the `ou=pct` branch of the
  directory;
- bootstraps that branch;
- sweeps out expired records in chunks (`cleanup`).

The directory is replaced by an in-memory table. The class `Service.UmaPctService` has a
`map<string, Pct>` keyed by token code and a flag saying whether the `ou=pct` branch exists.
Its invariant `Valid()` says that each record is stored under its own code and that no record
exists without the branch.

Modules:
- `Wrappers`: `Option` (Java's `null`) and `Result` (a thrown exception).
- `Claims`: claim values, claim sets, and the per-key copy of `setClaimObject(key, value, false)`.
  How that call combines an existing value with the incoming one is defined in a class that is
  not part of this model. It is therefore a parameter `combine`. `Replace` replaces the old
  value wholesale, with no deep merge of objects and no concatenation of arrays.
- `Records`: the `Pct` record, permission grants, `StringUtils.isBlank`, DN layout, default
  lifetime and the shape of a created record.
- `ClaimsMerge`: `WorkingRecord`, the record `updateClaims` ends up with, as a function of its
  inputs. The lemmas state what that record is in each case.
- `Sweep`: the table after `cleanup` (`Swept`) and after `remove(List)`, with the sweep's
  properties.
- `Service`: the class, whose methods are proved against the functions above.

Directory failures are inputs to the methods:
- `branchFails` says whether the directory refuses to add the `ou=pct` branch entry;
- `persistFails` and `mergeFails` say whether the add or the merge is refused;
- `failing` is the set of codes whose removal is refused;
- `encodingFails` says whether `now` could not be encoded as a generalized time.

The random parts of a new code (`uuid`, `serial`) and the new record's `expiration` are also
parameters. Timestamps are integers.

Three behaviours of the code are easy to misread, and the model follows the code in each:
- **Merge direction.** Line 69 copies the ticket's claims *into* the current token's claim
  set. With replacement, the ticket's values therefore win on shared keys. For a current token
  `{x:1}` and a ticket token `{x:2, y:9}`, the result is `{x:2, y:9}` under the ticket's code.
  It is not `{x:1, y:9}`, as it would be if the current token's values won. See
  `ClaimsMerge.IdentityTransferExample`.
- **Empty permission list.** `permissions.get(0)` throws on an empty list, and the catch
  returns the input token. So an empty list never creates a record, even when there is no
  current token.
- **Failed merge.** When the final merge fails, the token returned is the local working
  record, with its merged claims. It is not the caller's original token.

## Model

| member | source | states |
|---|---|---|
| `Claims.SetClaims` | Server/src/main/java/org/xdi/oxauth/uma/service/UmaPctService.java:68-77 | the claim-copy loop leaves exactly `Overlay(dst, src, combine)`, whatever order the keys are visited in |
| `Claims.OverlayKeys` | Server/src/main/java/org/xdi/oxauth/uma/service/UmaPctService.java:68-70 | setting claims never drops one: the keys afterwards are the keys of both sets |
| `Claims.OverlayAt` | Server/src/main/java/org/xdi/oxauth/uma/service/UmaPctService.java:69 | a source key gets `combine(old value or null, incoming)`; a key only in the destination is untouched; no other key appears |
| `Claims.OverlayReplaceIsUnion` | Server/src/main/java/org/xdi/oxauth/uma/service/UmaPctService.java:75-77 | under wholesale replacement, setting claims is the right-biased map union `dst + src` |
| `Claims.OverlayReplaceIdempotent` | Server/src/main/java/org/xdi/oxauth/uma/service/UmaPctService.java:75-77 | under replacement, setting the same claims a second time changes nothing |
| `Claims.OverlayReplaceExample` | Server/src/main/java/org/xdi/oxauth/uma/service/UmaPctService.java:69 | `{a:1,b:2}` set on `{a:0,c:3}` gives `{a:1,b:2,c:3}` |
| `Records.PctLifetime` | Server/src/main/java/org/xdi/oxauth/uma/service/UmaPctService.java:122-128 | the configured lifetime when it is positive, otherwise `DEFAULT_PCT_LIFETIME` = 3600; always positive |
| `Records.BranchBaseDn` | Server/src/main/java/org/xdi/oxauth/uma/service/UmaPctService.java:176-179 | the branch DN is the RDN `ou=pct` directly above the UMA base DN |
| `Records.Dn` | Server/src/main/java/org/xdi/oxauth/uma/service/UmaPctService.java:169-174 | fails exactly when the code is null, empty or whitespace-only; otherwise `oxAuthTokenCode=<code>,` followed by the branch DN |
| `Records.GeneratedCode` | Server/src/main/java/org/xdi/oxauth/uma/service/UmaPctService.java:107 | a generated code is never blank; it is the UUID, `_` and the serial |
| `Records.CreatePct` | Server/src/main/java/org/xdi/oxauth/uma/service/UmaPctService.java:106-114 | a created record has a non-blank generated code, DN `dn(code)`, the given client, no claims and the given expiration |
| `Records.TicketCode` | Server/src/main/java/org/xdi/oxauth/uma/service/UmaPctService.java:51 | the value of the grant's `pct` attribute, or null when the attribute is absent |
| `Records.DnInjective` | Server/src/main/java/org/xdi/oxauth/uma/service/UmaPctService.java:173 | two codes with the same DN are the same code |
| `Records.BlankCodesRefused` | Server/src/main/java/org/xdi/oxauth/uma/service/UmaPctService.java:170-171 | `dn` refuses null, `""`, all-space and tab/CR/LF codes, and accepts a code with one non-blank character |
| `ClaimsMerge.NoCurrentWithTicket` | Server/src/main/java/org/xdi/oxauth/uma/service/UmaPctService.java:54-80 | no current token and a ticket token found: the result is the ticket record itself, with its own claims and the ID token's claims set on top |
| `ClaimsMerge.NoCurrentTicketOnly` | Server/src/main/java/org/xdi/oxauth/uma/service/UmaPctService.java:56-58 | with no ID token claims as well, the ticket record is returned unchanged |
| `ClaimsMerge.CurrentAndTicket` | Server/src/main/java/org/xdi/oxauth/uma/service/UmaPctService.java:64-80 | both tokens: the ticket's record survives (code, DN, client, expiration); its claim keys are the union of the three sources; a key only in the current token keeps the current value; a ticket key is combined into the current value; an ID-token key is combined into the value after the ticket pass; the claims are exactly the ticket pass followed by the ID-token pass |
| `ClaimsMerge.CurrentWithoutTicket` | Server/src/main/java/org/xdi/oxauth/uma/service/UmaPctService.java:54-80 | current token and no ticket token: the current record survives with the ID token's claims set on it |
| `ClaimsMerge.NeitherToken` | Server/src/main/java/org/xdi/oxauth/uma/service/UmaPctService.java:59-61 | neither token: the created record survives, and under replacement its claims are exactly the ID token's |
| `ClaimsMerge.KeepsEveryClaim` | Server/src/main/java/org/xdi/oxauth/uma/service/UmaPctService.java:64-80 | no claim of a participating source is dropped, and the expiration is that of the surviving record |
| `ClaimsMerge.IdentityTransferExample` | Server/src/main/java/org/xdi/oxauth/uma/service/UmaPctService.java:66-72 | current `T1 {x:1}` and ticket `P1 {x:2,y:9}` give `P1 {x:2,y:9}` |
| `Sweep.SweptOnlyRemoves` | Server/src/main/java/org/xdi/oxauth/uma/service/UmaPctService.java:190-198 | the sweep only removes records; what is left is unchanged |
| `Sweep.SweptKeepsLive` | Server/src/main/java/org/xdi/oxauth/uma/service/UmaPctService.java:202 | every record with `expiration > now` is left as it was |
| `Sweep.SweptRemovesExpired` | Server/src/main/java/org/xdi/oxauth/uma/service/UmaPctService.java:186-202 | when removals succeed, a record survives exactly when `expiration > now` |
| `Sweep.SweptDespiteFailures` | Server/src/main/java/org/xdi/oxauth/uma/service/UmaPctService.java:191-197 | a refused removal does not stop the others: only refused records still match the filter |
| `Sweep.SweptFallbackRemovesAll` | Server/src/main/java/org/xdi/oxauth/uma/service/UmaPctService.java:203-205 | under the presence-filter fallback every record is eligible: only refused removals survive |
| `Sweep.SweptIdempotent` | Server/src/main/java/org/xdi/oxauth/uma/service/UmaPctService.java:181-209 | sweeping twice at the same instant removes nothing more |
| `Sweep.SweepBoundary` | Server/src/main/java/org/xdi/oxauth/uma/service/UmaPctService.java:202 | the boundary is inclusive: `expiration == now` is removed, `expiration == now + 1` stays |
| `Sweep.FirstFailure` | Server/src/main/java/org/xdi/oxauth/uma/service/UmaPctService.java:150-152 | the position of the first record whose removal is refused (or the length): every record before it is removable |
| `Service.UmaPctService.GetByCode` | Server/src/main/java/org/xdi/oxauth/uma/service/UmaPctService.java:91-104 | never fails; returns the stored record with that code, or null exactly when there is none |
| `Service.UmaPctService.TicketPct` | Server/src/main/java/org/xdi/oxauth/uma/service/UmaPctService.java:51-52 | a blank or missing ticket code gives null; otherwise the ticket is found exactly when a record with that code is stored, and it is that record |
| `Service.UmaPctService.AddBranch` | Server/src/main/java/org/xdi/oxauth/uma/service/UmaPctService.java:161-167 | the branch exists afterwards unless a missing branch could not be added; the call throws when the branch already existed or the write is refused |
| `Service.UmaPctService.PrepareBranch` | Server/src/main/java/org/xdi/oxauth/uma/service/UmaPctService.java:155-159 | creates the branch only when it is missing; it is missing afterwards only when that write is refused, and then the call throws; the records are as they were |
| `Service.UmaPctService.Persist` | Server/src/main/java/org/xdi/oxauth/uma/service/UmaPctService.java:130-139 | a refused branch write or a blank code is caught and adds nothing; otherwise the DN becomes `dn(code)` and the record is added exactly when its code is new and the directory accepts it |
| `Service.UmaPctService.CreatePctAndPersist` | Server/src/main/java/org/xdi/oxauth/uma/service/UmaPctService.java:116-120 | returns `createPct(clientId)`, which is added to the table exactly when the branch exists or could be added, its code is new and the write succeeds |
| `Service.UmaPctService.StoreMerge` | Server/src/main/java/org/xdi/oxauth/uma/service/UmaPctService.java:83 | the directory's merge writes the record under its code, or throws and changes nothing when the branch is missing or the directory fails |
| `Service.UmaPctService.Merge` | Server/src/main/java/org/xdi/oxauth/uma/service/UmaPctService.java:212-218 | writes the record, or changes nothing on failure; never throws |
| `Service.UmaPctService.Remove` | Server/src/main/java/org/xdi/oxauth/uma/service/UmaPctService.java:141-143 | removes the record's code from the table, or throws and changes nothing when refused; removing an absent record is a no-op |
| `Service.UmaPctService.RemoveByCode` | Server/src/main/java/org/xdi/oxauth/uma/service/UmaPctService.java:145-147 | removes the record found by code; an unknown code changes nothing |
| `Service.UmaPctService.RemoveAll` | Server/src/main/java/org/xdi/oxauth/uma/service/UmaPctService.java:149-153 | removes the records before the first refused one; that one and the rest stay; succeeds exactly when none is refused |
| `Service.UmaPctService.UpdateClaims` | Server/src/main/java/org/xdi/oxauth/uma/service/UmaPctService.java:49-89 | never throws. With no permissions it returns the input token and changes nothing. Otherwise it returns `WorkingRecord`. A new record is created and persisted only when there is neither a current nor a ticket token, and only if the branch exists or can be added. The working record is written when the branch exists and the merge succeeds; otherwise the table keeps whatever was created before the failure |
| `Service.UmaPctService.Cleanup` | Server/src/main/java/org/xdi/oxauth/uma/service/UmaPctService.java:181-210 | when the branch exists or can be added, the branch exists afterwards and the table is `Swept(old table, now, encodingFails, failing)`, whatever chunks the search returns; when the branch write is refused, the call throws before searching and nothing changes |

## Left out

- Directory I/O is replaced by the in-memory table: `LdapEntryManager`, `Filter.create`, `SearchScope` and `BatchOperation.iterateAllByChunks`.
- The table is keyed by code. A record's DN is carried as a field and is not used as its key.
- The entry manager's code is not part of this model, so its operations are modelled on assumptions, listed below.
- StoreMerge: assumes `merge` (lines 83 and 214) creates the record if absent, replaces it otherwise, and is refused when the branch is missing.
- Persist: assumes `persist` of a record (line 135) is an add that is refused when a record with that code exists.
- AddBranch: assumes `persist` of the branch entry (line 166) is refused when the branch already exists.
- Remove: assumes `remove` (line 142) of a record that is not stored is a no-op that succeeds.
- Chunk size: `CleanerTimer.BATCH_SIZE` is not part of this model. A chunk is any non-empty set of matching records that the paged search has not yet returned, and the loop stops when none is left.
- Filter values are not escaped as section 3 of RFC 4515 requires (lines 93 and 202). The model compares codes and timestamps directly, so wildcard or malformed-filter effects are not captured.
- `StaticUtils.encodeGeneralizedTime` (the generalized time syntax of section 3.3.13 of RFC 4517) is not modelled. Timestamps are integers, and an encoding failure is the boolean `encodingFails`.
- Random code generation is not modelled. `UUID.randomUUID` and `INumGenerator.generate(8)` are the parameters `uuid` and `serial`, and their format is not checked.
- The `UmaPCT(lifetime)` constructor is not part of this model, so the new record's expiration is a parameter. `PctLifetime` is therefore not connected to it.
- `JwtClaims` internals, JSON typing and claim order are not modelled. Claim numbers are integers, and `setClaimObject(..., false)` is the abstract `combine`.
- Aliasing of claim objects is not modelled. In the source, the claim set of the caller's token object may be mutated in place. Here claim sets are values, and the caller's token is not changed.
- RemoveByCode: when no record has the code, the source calls `remove(null)`, whose effect depends on the entry manager. The model changes nothing and reports success.
- GetByCode: directory read failures (caught at lines 100-102) are not modelled. The table cannot fail to be read.
- Null elements and null attribute maps in the permission list are not modelled. Their NullPointerException would also be caught by `updateClaims`.
- Logging, dependency injection, and `@Stateless` concurrency are not modelled. This includes lost updates and duplicate branch creation between processes.
