# Super-user seed extension, modelled in Dafny

This project models the super-user bootstrap of the Tractus-X identity hub:
`SuperUserSeedExtension`. At initialization the extension reads two settings:

- the super-user's participant id, which defaults to `"super-user"`;
- an optional API-key override.

At start-up it does the following:

1. It checks whether a participant context with that id exists. If one does, it logs at debug level and returns.
2. Otherwise it asks the participant-context service to create the participant. The manifest is built from the id: a `did:web:` DID, active, an Ed25519/EdDSA key with id-derived key id and private-key alias, and the admin role.
3. If creation fails, it throws.
4. If creation succeeds, it resolves the effective API key.
   - With an override, it warns when the override has no `.`. It then re-fetches the participant and stores the override in the vault under the participant's API-token alias. A failure in either step is only a warning. The override becomes the effective key.
   - Without an override, the generated key is the effective key.
5. It logs the effective key once, at info level.

The model is functional:

- The participant-context service is a map from participant id to `ParticipantContext` (manifest plus API-token alias).
- The vault is a map from alias to secret.
- The monitor is a sequence of `(level, message)` events.
- Every answer a collaborator can give is fixed in advance by an `Env` record: a backend failure of the existence check, the outcome of creation, a failure of the re-fetch, and a failure of the vault store.
- `SuperUserSeed.Start` is a pure function. It maps the configuration, the state and the `Env` to the new state, the emitted log and the outcome. The outcome is either a normal return or a thrown exception with its message.

Modules:

| file | module | models |
|---|---|---|
| wrappers.dfy | `Wrappers` | service results with failure details, optional values |
| text.dfy | `Text` | Java's `String.contains` as substring search, prefix stripping |
| monitor.dfy | `Monitor` | the log as an event sequence, filtering by level |
| participant.dfy | `Participant` | `ParticipantManifest`, `KeyDescriptor`, the super-user manifest |
| directory.dfy | `Directory` | `getParticipantContext` and `createParticipantContext` over a map |
| vault.dfy | `Vault` | `storeSecret` over a map |
| super_user_seed.dfy | `SuperUserSeed` | `initialize` and `start` |
| super_user_seed_properties.dfy | `SuperUserSeedProperties` | case-by-case and cross-run properties of `start` |

## Lost creation races and empty overrides

A failed existence check always leads to a creation attempt, and any creation failure throws (`extensions/seed/super-user/src/main/java/org/eclipse/tractusx/identityhub/seed/SuperUserSeedExtension.java:73`, `extensions/seed/super-user/src/main/java/org/eclipse/tractusx/identityhub/seed/SuperUserSeedExtension.java:104`). This includes the duplicate rejection that follows when another instance created the participant in between, or when the check failed for a backend reason while the participant exists. `SuperUserSeedProperties.DuplicateCreationThrows` states this: if the participant exists but the existence check fails, `start` throws. The directory's duplicate rejection uses the stand-in detail `Directory.DuplicateDetail`.

Any configured override is used, including the empty string. The empty string has no `.`, so it draws the format warning and is then stored.

## Model

| member | source | states |
|---|---|---|
| SuperUserSeed.Initialize | extensions/seed/super-user/src/main/java/org/eclipse/tractusx/identityhub/seed/SuperUserSeedExtension.java:63-68 | an absent id setting yields "super-user", a present one is used verbatim; the override is present exactly when its setting is, with the setting's value |
| SuperUserSeedProperties.InitializeDefaults | extensions/seed/super-user/src/main/java/org/eclipse/tractusx/identityhub/seed/SuperUserSeedExtension.java:43-66 | with no settings the configuration is id "super-user" and no override |
| Participant.SuperUserManifest | extensions/seed/super-user/src/main/java/org/eclipse/tractusx/identityhub/seed/SuperUserSeedExtension.java:77-87 | the manifest carries the configured id, is active, its DID reads back to the id under "did:web:", its key parameters are exactly algorithm EdDSA and curve Ed25519, key id and private-key alias are the id followed by "-key" and "-alias", roles are exactly [admin] |
| Participant.DidParticipant | extensions/seed/super-user/src/main/java/org/eclipse/tractusx/identityhub/seed/SuperUserSeedExtension.java:79 | reading the participant back from a DID inverts the "did:web:" prefixing, and succeeds on every DID with that prefix |
| Text.Contains | extensions/seed/super-user/src/main/java/org/eclipse/tractusx/identityhub/seed/SuperUserSeedExtension.java:91 | the substring test holds exactly when the searched text occurs at some position, the empty text everywhere |
| Text.ContainsSingleChar | extensions/seed/super-user/src/main/java/org/eclipse/tractusx/identityhub/seed/SuperUserSeedExtension.java:91 | searching for the one-character text "." is membership of the character '.' |
| Directory.GetParticipantContext | extensions/seed/super-user/src/main/java/org/eclipse/tractusx/identityhub/seed/SuperUserSeedExtension.java:73 | the lookup succeeds exactly when the backend does not fail and the id is stored, and then returns the stored context |
| Directory.CreateParticipantContext | extensions/seed/super-user/src/main/java/org/eclipse/tractusx/identityhub/seed/SuperUserSeedExtension.java:77-88 | a duplicate id is rejected with nothing changed; otherwise the service's answer is returned, and on success exactly the new id is added, holding the submitted manifest and the service's token alias; ids stay filed under their own manifests |
| Vault.StoreSecret | extensions/seed/super-user/src/main/java/org/eclipse/tractusx/identityhub/seed/SuperUserSeedExtension.java:95-97 | on success the alias holds the secret and only that alias is added or changed; on failure the vault is unchanged and the failure detail is reported |
| SuperUserSeed.ReportMessage | extensions/seed/super-user/src/main/java/org/eclipse/tractusx/identityhub/seed/SuperUserSeedExtension.java:102 | the info message reporting the API key gives back exactly that key when read |
| SuperUserSeed.CreationErrorMessage | extensions/seed/super-user/src/main/java/org/eclipse/tractusx/identityhub/seed/SuperUserSeedExtension.java:104 | the exception message is "Error creating Super-User: " followed by exactly the failure detail |
| SuperUserSeed.AlreadyExistsMessage | extensions/seed/super-user/src/main/java/org/eclipse/tractusx/identityhub/seed/SuperUserSeedExtension.java:74 | the debug message for an existing super-user names the configured id, which reads back from it after the fixed opening "super-user already exists with ID '" |
| SuperUserSeed.OverrideErrorMessage | extensions/seed/super-user/src/main/java/org/eclipse/tractusx/identityhub/seed/SuperUserSeedExtension.java:98 | the warning for a failed re-fetch is "Error overriding API key for '", the id, "': ", then exactly the failure detail, which reads back from it |
| SuperUserSeed.ApplyOverride | extensions/seed/super-user/src/main/java/org/eclipse/tractusx/identityhub/seed/SuperUserSeedExtension.java:89-100 | the override branch logs nothing at info; the format warning is logged exactly when the key has no '.'; a failed re-fetch leaves the vault alone and logs a warning carrying its detail; a successful re-fetch hands the override to the vault under the participant's token alias; a failed store logs a warning carrying its detail; the only debug event is the override-success message, exactly when re-fetch and store succeed; the number of warnings is one for a key without '.' plus one for a failed re-fetch or store |
| SuperUserSeed.Start | extensions/seed/super-user/src/main/java/org/eclipse/tractusx/identityhub/seed/SuperUserSeedExtension.java:71-105 | a throw changes no state and logs nothing; a normal return leaves the super-user in the directory; at most the configured id is added; directory consistency is preserved |
| SuperUserSeedProperties.StartWhenProvisioned | extensions/seed/super-user/src/main/java/org/eclipse/tractusx/identityhub/seed/SuperUserSeedExtension.java:73-76 | an existing super-user makes start return with state unchanged (no creation, no vault write) and a single debug event |
| SuperUserSeedProperties.StartStoresSuperUserManifest | extensions/seed/super-user/src/main/java/org/eclipse/tractusx/identityhub/seed/SuperUserSeedExtension.java:77-88 | when the super-user is absent and creation succeeds, the directory gains exactly the super-user manifest under the service's token alias and start returns |
| SuperUserSeedProperties.StartCreationFailureThrows | extensions/seed/super-user/src/main/java/org/eclipse/tractusx/identityhub/seed/SuperUserSeedExtension.java:88-104 | a failed creation throws "Error creating Super-User: " plus the failure detail, with state unchanged and no info event, so no key is logged |
| SuperUserSeedProperties.StartWithoutOverride | extensions/seed/super-user/src/main/java/org/eclipse/tractusx/identityhub/seed/SuperUserSeedExtension.java:89-102 | without an override the whole log is the one info event reporting the generated key, and the vault is unchanged |
| SuperUserSeedProperties.StartReportsOverride | extensions/seed/super-user/src/main/java/org/eclipse/tractusx/identityhub/seed/SuperUserSeedExtension.java:89-102 | with an override, start returns and the only info event reports the override, never the generated key, whatever happens in the vault |
| SuperUserSeedProperties.StartWarnsOnMalformedOverride | extensions/seed/super-user/src/main/java/org/eclipse/tractusx/identityhub/seed/SuperUserSeedExtension.java:91-93 | the format warning is logged exactly when the override contains no '.' |
| SuperUserSeedProperties.StartStoresOverride | extensions/seed/super-user/src/main/java/org/eclipse/tractusx/identityhub/seed/SuperUserSeedExtension.java:94-99 | when re-fetch and store succeed, the vault gains exactly the override under the new participant's token alias |
| SuperUserSeedProperties.StartOverrideFailureOnlyWarns | extensions/seed/super-user/src/main/java/org/eclipse/tractusx/identityhub/seed/SuperUserSeedExtension.java:94-102 | a failed re-fetch or store leaves the vault unchanged, and start still returns and reports the override; a failed re-fetch logs the override-error warning with its detail, a failed store logs the vault-error warning with its detail |
| SuperUserSeedProperties.KeySurfacedOnce | extensions/seed/super-user/src/main/java/org/eclipse/tractusx/identityhub/seed/SuperUserSeedExtension.java:73-104 | after a creation the log has exactly one info event and it reports the override if configured, else the generated key; otherwise no info event |
| SuperUserSeedProperties.NonInfoEventsAreFixedMessages | extensions/seed/super-user/src/main/java/org/eclipse/tractusx/identityhub/seed/SuperUserSeedExtension.java:73-102 | every debug or warning event of start is the already-exists message for the configured id, the format warning, the override-success message, or a failure warning carrying a collaborator's failure detail; the API key is shown only in the info report |
| SuperUserSeedProperties.StartWritesOnlyOverride | extensions/seed/super-user/src/main/java/org/eclipse/tractusx/identityhub/seed/SuperUserSeedExtension.java:89-101 | start either leaves the vault unchanged or writes exactly the override under the super-user's token alias |
| SuperUserSeedProperties.SecondStartIsNoOp | extensions/seed/super-user/src/main/java/org/eclipse/tractusx/identityhub/seed/SuperUserSeedExtension.java:73-88 | after a normal return, a second start with an undisturbed existence check changes nothing and returns; one start adds at most one participant |
| SuperUserSeedProperties.DuplicateCreationThrows | extensions/seed/super-user/src/main/java/org/eclipse/tractusx/identityhub/seed/SuperUserSeedExtension.java:73-104 | if the super-user exists but the existence check fails, the duplicate creation is rejected and start throws with state unchanged |

## Left out

- `StsClientMigrationExtension.java` (the subsystem migration runner): it only names the subsystem `"stsclient"` and hands over an injected vault. The migration logic lives in `AbstractPostgresqlMigrationExtension` and a database runtime, which are not part of this model.
- `name()` returns a constant display name and is not modelled.
- Key-pair generation and API-key generation happen inside the participant-context service. The generated key and its token alias are inputs (`Env.creation`).
- The service also persists the generated key when it creates a participant. That persistence is internal to the service and not modelled. The model's vault changes only through the writes `start` itself makes.
- The value of `ServicePrincipal.ROLE_ADMIN` is defined outside this source. It is modelled as the constructor `Participant.Role.Admin`.
- The runtime is not modelled: dependency injection, the extension lifecycle, settings loading and the monitor's class-name prefix. The two setting values are a map from key to value.
- Concurrency between instances is not modelled as interleaving. A lost race appears only as a participant that is present while the existence check fails (see `DuplicateCreationThrows`).
- The exception is a value (`Outcome.Threw`). Propagating it out of the runtime, and halting start-up, is not modelled.
- Collaborators are assumed to report failures only as result values. A `getParticipantContext` or `storeSecret` that throws would propagate out of `start` and would not be only a warning; that is not modelled.
