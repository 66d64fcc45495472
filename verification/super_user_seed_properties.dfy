/** What `start` promises, case by case, and across runs. */
module SuperUserSeedProperties {

  import opened Wrappers
  import opened Monitor
  import opened Participant
  import opened Directory
  import opened Vault
  import opened SuperUserSeed

  /** The first `getParticipantContext` call succeeds. */
  predicate Found(cfg: Config, st: State, env: Env)
  {
    GetParticipantContext(st.directory, cfg.participantId, env.existenceFault).Success?
  }

  /** The directory's answer to creating the super-user's manifest. */
  function Creation(cfg: Config, st: State, env: Env): (r: Result<GeneratedKey>)
  {
    CreateParticipantContext(st.directory, SuperUserManifest(cfg.participantId), env.creation).1
  }

  /** The key `start` should surface after creating the super-user: the
      operator's override when one is configured, the generated key otherwise. */
  function EffectiveKey(cfg: Config, generated: GeneratedKey): (key: string)
  {
    match cfg.apiKeyOverride
    case Some(key) => key
    case None => generated.apiKey
  }

  /** With no settings at all, the id is "super-user" and there is no override. */
  lemma InitializeDefaults()
    ensures Initialize(map[]) == Config("super-user", None)
  {
  }

  /** An existing super-user makes `start` a no-op: no creation, no vault
      write, and a single debug event. */
  lemma StartWhenProvisioned(cfg: Config, st: State, env: Env)
    requires cfg.participantId in st.directory && env.existenceFault.None?
    ensures Start(cfg, st, env).state == st
    ensures Start(cfg, st, env).outcome == Returned
    ensures |Start(cfg, st, env).log| == 1 && Start(cfg, st, env).log[0].level == Debug
  {
  }

  /** When the super-user is absent and creation succeeds, the directory gains
      exactly one entry: the manifest derived from the configured id, under
      the token alias the directory chose. */
  lemma StartStoresSuperUserManifest(cfg: Config, st: State, env: Env)
    requires cfg.participantId !in st.directory && env.creation.Success?
    ensures Start(cfg, st, env).state.directory ==
      st.directory[cfg.participantId := ParticipantContext(SuperUserManifest(cfg.participantId), env.creation.value.apiTokenAlias)]
    ensures Start(cfg, st, env).outcome == Returned
  {
  }

  /** A failed creation throws with the failure detail, changes nothing and
      logs nothing, so no API key is ever shown. */
  lemma StartCreationFailureThrows(cfg: Config, st: State, env: Env)
    requires !Found(cfg, st, env) && Creation(cfg, st, env).Failure?
    ensures Start(cfg, st, env).outcome == Threw(CreationErrorMessage(Creation(cfg, st, env).detail))
    ensures Start(cfg, st, env).state == st
    ensures Messages(Start(cfg, st, env).log, Info) == []
  {
  }

  /** Without an override the generated key is reported, nothing is logged
      as a warning, and `start` does not touch the vault. */
  lemma StartWithoutOverride(cfg: Config, st: State, env: Env)
    requires !Found(cfg, st, env) && Creation(cfg, st, env).Success?
    requires cfg.apiKeyOverride.None?
    ensures Start(cfg, st, env).state.vault == st.vault
    ensures Messages(Start(cfg, st, env).log, Info) == [ReportMessage(Creation(cfg, st, env).value.apiKey)]
    ensures Messages(Start(cfg, st, env).log, Warning) == []
    ensures Start(cfg, st, env).log == [LogEvent(Info, ReportMessage(Creation(cfg, st, env).value.apiKey))]
    ensures Start(cfg, st, env).outcome == Returned
  {
  }

  /** The log of a run that creates the super-user with an override: the
      override branch's events followed by the key report. */
  lemma OverrideRunLog(cfg: Config, st: State, env: Env)
    requires !Found(cfg, st, env) && Creation(cfg, st, env).Success?
    requires cfg.apiKeyOverride.Some?
    ensures var dir' := CreateParticipantContext(st.directory, SuperUserManifest(cfg.participantId), env.creation).0;
      Start(cfg, st, env).log ==
        ApplyOverride(cfg.participantId, cfg.apiKeyOverride.value, dir', st.vault, env).1
        + [LogEvent(Info, ReportMessage(cfg.apiKeyOverride.value))]
    ensures Start(cfg, st, env).outcome == Returned
  {
  }

  /** With an override, the override, never the generated key, is the one
      key reported, whatever happens in the vault. */
  lemma StartReportsOverride(cfg: Config, st: State, env: Env)
    requires !Found(cfg, st, env) && Creation(cfg, st, env).Success?
    requires cfg.apiKeyOverride.Some?
    ensures Start(cfg, st, env).outcome == Returned
    ensures Messages(Start(cfg, st, env).log, Info) == [ReportMessage(cfg.apiKeyOverride.value)]
  {
    OverrideRunLog(cfg, st, env);
    var dir' := CreateParticipantContext(st.directory, SuperUserManifest(cfg.participantId), env.creation).0;
    var overrideLog := ApplyOverride(cfg.participantId, cfg.apiKeyOverride.value, dir', st.vault, env).1;
    MessagesAppend(overrideLog, [LogEvent(Info, ReportMessage(cfg.apiKeyOverride.value))], Info);
  }

  /** An override without "." draws the format warning, and only such an
      override does; the override is used either way. */
  lemma StartWarnsOnMalformedOverride(cfg: Config, st: State, env: Env)
    requires !Found(cfg, st, env) && Creation(cfg, st, env).Success?
    requires cfg.apiKeyOverride.Some?
    ensures LogEvent(Warning, KeyFormatWarning) in Start(cfg, st, env).log <==> '.' !in cfg.apiKeyOverride.value
  {
    OverrideRunLog(cfg, st, env);
  }

  /** When the re-fetch and the store succeed, the vault gains exactly the
      override under the new participant's token alias. */
  lemma StartStoresOverride(cfg: Config, st: State, env: Env)
    requires !Found(cfg, st, env) && Creation(cfg, st, env).Success?
    requires cfg.apiKeyOverride.Some? && env.refetchFault.None? && env.storeFault.None?
    ensures Start(cfg, st, env).state.vault ==
      st.vault[Creation(cfg, st, env).value.apiTokenAlias := cfg.apiKeyOverride.value]
  {
  }

  /** A failed re-fetch or a failed store is only a warning: `start` still
      returns, the vault is unchanged, and the override is still reported. */
  lemma StartOverrideFailureOnlyWarns(cfg: Config, st: State, env: Env)
    requires !Found(cfg, st, env) && Creation(cfg, st, env).Success?
    requires cfg.apiKeyOverride.Some? && (env.refetchFault.Some? || env.storeFault.Some?)
    ensures Start(cfg, st, env).outcome == Returned
    ensures Start(cfg, st, env).state.vault == st.vault
    ensures Messages(Start(cfg, st, env).log, Info) == [ReportMessage(cfg.apiKeyOverride.value)]
    ensures env.refetchFault.Some? ==>
      LogEvent(Warning, OverrideErrorMessage(cfg.participantId, env.refetchFault.value)) in Start(cfg, st, env).log
    ensures env.refetchFault.None? && env.storeFault.Some? ==>
      LogEvent(Warning, StoreErrorPrefix + env.storeFault.value) in Start(cfg, st, env).log
  {
    OverrideRunLog(cfg, st, env);
    StartReportsOverride(cfg, st, env);
  }

  /** Whenever `start` creates the super-user, the log holds exactly one info
      event, and it reports the effective key: the override if configured,
      the generated key otherwise. Otherwise nothing is logged at info. */
  lemma KeySurfacedOnce(cfg: Config, st: State, env: Env)
    ensures !Found(cfg, st, env) && Creation(cfg, st, env).Success? ==>
      Messages(Start(cfg, st, env).log, Info) == [ReportMessage(EffectiveKey(cfg, Creation(cfg, st, env).value))]
    ensures Found(cfg, st, env) || Creation(cfg, st, env).Failure? ==>
      Messages(Start(cfg, st, env).log, Info) == []
  {
    if !Found(cfg, st, env) && Creation(cfg, st, env).Success? {
      if cfg.apiKeyOverride.Some? {
        StartReportsOverride(cfg, st, env);
      } else {
        StartWithoutOverride(cfg, st, env);
      }
    }
  }

  /** Apart from the one info report, `start` logs only fixed texts, the
      configured id and collaborators' failure details, so the API key
      appears in no other event. */
  lemma NonInfoEventsAreFixedMessages(cfg: Config, st: State, env: Env)
    ensures forall e :: e in Start(cfg, st, env).log && e.level != Info ==>
      || e.message == AlreadyExistsMessage(cfg.participantId)
      || e.message == KeyFormatWarning
      || e.message == OverrideSucceeded
      || (env.refetchFault.Some? && e.message == OverrideErrorMessage(cfg.participantId, env.refetchFault.value))
      || (env.storeFault.Some? && e.message == StoreErrorPrefix + env.storeFault.value)
  {
    if !Found(cfg, st, env) && Creation(cfg, st, env).Success? && cfg.apiKeyOverride.Some? {
      OverrideRunLog(cfg, st, env);
    }
  }

  /** `start` writes at most one secret: the override, under the token alias of
      the participant it has just created. The generated key is never written
      by `start` itself. */
  lemma StartWritesOnlyOverride(cfg: Config, st: State, env: Env)
    ensures var r := Start(cfg, st, env);
      r.state.vault == st.vault
      || (cfg.apiKeyOverride.Some? && cfg.participantId in r.state.directory
          && r.state.vault == st.vault[r.state.directory[cfg.participantId].apiTokenAlias := cfg.apiKeyOverride.value])
  {
  }

  /** Idempotence: after a normal return, a second `start` whose existence
      check is not disturbed by a backend failure is a no-op, so the
      super-user is created at most once. */
  lemma SecondStartIsNoOp(cfg: Config, st: State, env1: Env, env2: Env)
    requires Start(cfg, st, env1).outcome == Returned
    requires env2.existenceFault.None?
    ensures Start(cfg, Start(cfg, st, env1).state, env2).state == Start(cfg, st, env1).state
    ensures Start(cfg, Start(cfg, st, env1).state, env2).outcome == Returned
    ensures |Start(cfg, st, env1).state.directory| <= |st.directory| + 1
  {
    if !Found(cfg, st, env1) {
      StartStoresSuperUserManifest(cfg, st, env1);
    }
  }

  /** The code does not treat an existing participant as success once the
      existence check has failed (a lost startup race between instances, or a
      backend failure of the check): the directory rejects the duplicate and
      `start` throws. */
  lemma DuplicateCreationThrows(cfg: Config, st: State, env: Env)
    requires cfg.participantId in st.directory && env.existenceFault.Some?
    ensures Start(cfg, st, env).outcome == Threw(CreationErrorMessage(DuplicateDetail))
    ensures Start(cfg, st, env).state == st
  {
  }
}
