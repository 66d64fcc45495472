/** The super-user seed extension: `initialize` reads two settings, and
    `start` provisions the privileged participant on first startup.

    `start` is a pure state transition. Its inputs are the configuration, the
    directory and vault state, and an `Env` that fixes the collaborators'
    answers (the oracle outcomes). Its result is the new state, the log events
    it emitted, and whether it returned normally or threw. */
module SuperUserSeed {

  import opened Wrappers
  import opened Text
  import opened Monitor
  import opened Participant
  import opened Directory
  import opened Vault

  const DefaultSuperUserParticipantId := "super-user"
  const SuperUserApiKeyProperty := "edc.ih.api.superuser.key"
  const SuperUserParticipantIdProperty := "edc.ih.api.superuser.id"

  /** The two settings, read once by `initialize`. */
  datatype Config = Config(participantId: string, apiKeyOverride: Option<string>)

  /** `initialize`: the participant id defaults to "super-user", the API-key
      override defaults to absent. */
  function Initialize(settings: map<string, string>): (c: Config)
    ensures SuperUserParticipantIdProperty !in settings ==> c.participantId == "super-user"
    ensures SuperUserParticipantIdProperty in settings ==> c.participantId == settings[SuperUserParticipantIdProperty]
    ensures c.apiKeyOverride.Some? <==> SuperUserApiKeyProperty in settings
    ensures c.apiKeyOverride.Some? ==> c.apiKeyOverride.value == settings[SuperUserApiKeyProperty]
  {
    Config(
      if SuperUserParticipantIdProperty in settings then settings[SuperUserParticipantIdProperty]
      else DefaultSuperUserParticipantId,
      if SuperUserApiKeyProperty in settings then Some(settings[SuperUserApiKeyProperty]) else None)
  }

  datatype State = State(directory: ParticipantDirectory, vault: SecretVault)

  /** The collaborators' answers for one run of `start`:
      - `existenceFault`: a backend failure of the first `getParticipantContext`;
      - `creation`: the directory's answer to creating a new participant;
      - `refetchFault`: a backend failure of the re-fetch after creation;
      - `storeFault`: a failure of the vault when storing the override. */
  datatype Env = Env(
    existenceFault: Option<string>,
    creation: Result<GeneratedKey>,
    refetchFault: Option<string>,
    storeFault: Option<string>)

  /** How `start` ends: normally, or with an `EdcException` carrying a message. */
  datatype Outcome = Returned | Threw(message: string)

  datatype StartResult = StartResult(state: State, log: Log, outcome: Outcome)

  const ReportPrefix := "Created user 'super-user'. Please take note of the API Key: "
  const CreationErrorPrefix := "Error creating Super-User: "
  const StoreErrorPrefix := "Error storing API key in vault: "
  const OverrideSucceeded := "Super-user key override successful"
  const KeyFormatWarning := "Super-user key override: " + "this key appears to have an invalid format, you may be unable to access some APIs. It must follow the structure: 'base64(<participantId>).<random-string>'"

  /** The key an info message reports, if it is a key report. */
  function ReportedKey(message: string): (r: Option<string>)
  {
    StripPrefix(message, ReportPrefix)
  }

  /** The info message that surfaces the effective API key; the key can be
      read back from it. */
  function ReportMessage(key: string): (message: string)
    ensures ReportedKey(message) == Some(key)
  {
    StripPrefixOfPrepend(ReportPrefix, key);
    ReportPrefix + key
  }

  /** The message of the exception thrown when creation fails; the failure
      detail can be read back from it. */
  function CreationErrorMessage(detail: string): (message: string)
    ensures StripPrefix(message, CreationErrorPrefix) == Some(detail)
  {
    StripPrefixOfPrepend(CreationErrorPrefix, detail);
    CreationErrorPrefix + detail
  }

  const AlreadyExistsPrefix := "super-user already exists with ID '"
  const AlreadyExistsSuffix := "', will not re-create"

  /** The debug message logged when the super-user already exists; it names
      the configured id, which can be read back from it. */
  function AlreadyExistsMessage(id: string): (message: string)
    ensures StripPrefix(message, AlreadyExistsPrefix) == Some(id + AlreadyExistsSuffix)
  {
    StripPrefixOfPrepend(AlreadyExistsPrefix, id + AlreadyExistsSuffix);
    AlreadyExistsPrefix + (id + AlreadyExistsSuffix)
  }

  /** The start of the warning logged when the re-fetch for the override fails. */
  function OverrideErrorPrefix(id: string): (prefix: string)
  {
    "Error overriding API key for '" + id + "': "
  }

  /** The warning logged when the re-fetch for the override fails; the failure
      detail can be read back from it. */
  function OverrideErrorMessage(id: string, detail: string): (message: string)
    ensures StripPrefix(message, OverrideErrorPrefix(id)) == Some(detail)
    ensures message != KeyFormatWarning
  {
    StripPrefixOfPrepend(OverrideErrorPrefix(id), detail);
    assert (OverrideErrorPrefix(id) + detail)[0] == 'E';
    assert KeyFormatWarning[0] == 'S';
    OverrideErrorPrefix(id) + detail
  }

  /** The API-key shape check: an override is well-formed when it contains ".". */
  predicate WellFormedKey(key: string)
  {
    Contains(key, ".")
  }

  /** The override branch after a successful creation: warn about a key without
      ".", re-fetch the participant, and store the override under its token
      alias. Every failure here is only a warning. Returns the new vault and
      the events logged. */
  function ApplyOverride(id: string, key: string, dir: ParticipantDirectory, vault: SecretVault, env: Env)
    : (r: (SecretVault, Log))
    ensures Messages(r.1, Info) == []
    ensures (LogEvent(Warning, KeyFormatWarning) in r.1) <==> '.' !in key
    ensures GetParticipantContext(dir, id, env.refetchFault).Failure? ==> r.0 == vault
    ensures GetParticipantContext(dir, id, env.refetchFault).Success? ==>
      r.0 == StoreSecret(vault, dir[id].apiTokenAlias, key, env.storeFault).0
    ensures env.refetchFault.Some? ==>
      LogEvent(Warning, OverrideErrorMessage(id, env.refetchFault.value)) in r.1
    ensures GetParticipantContext(dir, id, env.refetchFault).Success? && env.storeFault.Some? ==>
      LogEvent(Warning, StoreErrorPrefix + env.storeFault.value) in r.1
    ensures GetParticipantContext(dir, id, env.refetchFault).Success? && env.storeFault.None? ==>
      Messages(r.1, Warning) == (if '.' in key then [] else [KeyFormatWarning])
    ensures Messages(r.1, Debug) ==
      (if GetParticipantContext(dir, id, env.refetchFault).Success? && env.storeFault.None? then [OverrideSucceeded] else [])
    ensures |Messages(r.1, Warning)| ==
      (if '.' in key then 0 else 1)
      + (if GetParticipantContext(dir, id, env.refetchFault).Success? && env.storeFault.None? then 0 else 1)
  {
    ContainsSingleChar(key, '.');
    var formatLog := if WellFormedKey(key) then [] else [LogEvent(Warning, KeyFormatWarning)];
    match GetParticipantContext(dir, id, env.refetchFault)
    case Failure(detail) =>
      (vault, formatLog + [LogEvent(Warning, OverrideErrorMessage(id, detail))])
    case Success(pc) =>
      var (vault', status) := StoreSecret(vault, pc.apiTokenAlias, key, env.storeFault);
      match status
      case Ok => (vault', formatLog + [LogEvent(Debug, OverrideSucceeded)])
      case Failed(detail) =>
        assert (StoreErrorPrefix + detail)[0] == 'E';
        assert KeyFormatWarning[0] == 'S';
        (vault', formatLog + [LogEvent(Warning, StoreErrorPrefix + detail)])
  }

  /** `start`. */
  function Start(cfg: Config, st: State, env: Env): (r: StartResult)
    ensures r.outcome.Threw? ==> r.state == st && r.log == []
    ensures r.outcome.Returned? ==> cfg.participantId in r.state.directory
    ensures r.state.directory.Keys <= st.directory.Keys + {cfg.participantId}
    ensures Consistent(st.directory) ==> Consistent(r.state.directory)
  {
    var id := cfg.participantId;
    if GetParticipantContext(st.directory, id, env.existenceFault).Success? then
      StartResult(st, [LogEvent(Debug, AlreadyExistsMessage(id))], Returned)
    else
      var (dir', created) := CreateParticipantContext(st.directory, SuperUserManifest(id), env.creation);
      match created
      case Failure(detail) =>
        StartResult(State(dir', st.vault), [], Threw(CreationErrorMessage(detail)))
      case Success(generated) =>
        match cfg.apiKeyOverride
        case None =>
          StartResult(State(dir', st.vault), [LogEvent(Info, ReportMessage(generated.apiKey))], Returned)
        case Some(key) =>
          var (vault', overrideLog) := ApplyOverride(id, key, dir', st.vault, env);
          StartResult(State(dir', vault'), overrideLog + [LogEvent(Info, ReportMessage(key))], Returned)
  }
}
