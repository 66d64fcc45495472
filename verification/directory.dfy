/** The participant-context service as abstract state: a map from participant
    id to the stored participant context. Only the two operations the seed
    extension calls are modelled; what the service does internally (key
    generation, API-key generation, persistence) is an input. */
module Directory {

  import opened Wrappers
  import opened Participant

  /** A stored participant: its manifest and the vault alias of its API token. */
  datatype ParticipantContext = ParticipantContext(manifest: ParticipantManifest, apiTokenAlias: string)

  /** A successful creation: the generated API key the service hands back,
      and the API-token alias the service files the new participant under.
      Both are fixed in advance by the caller's oracle (`Env.creation`). */
  datatype GeneratedKey = GeneratedKey(apiKey: string, apiTokenAlias: string)

  type ParticipantDirectory = map<string, ParticipantContext>

  /** Every entry is filed under its own participant id. */
  ghost predicate Consistent(dir: ParticipantDirectory)
  {
    forall id :: id in dir ==> dir[id].manifest.participantId == id
  }

  const NotFoundDetail := "participant context not found"
  const DuplicateDetail := "participant context already exists"

  /** `getParticipantContext(id)`: succeeds with the stored context when the id
      is present and the backend does not fail (`fault` is the backend's
      failure, if any). */
  function GetParticipantContext(dir: ParticipantDirectory, id: string, fault: Option<string>): (r: Result<ParticipantContext>)
    ensures r.Success? <==> fault.None? && id in dir
    ensures r.Success? ==> r.value == dir[id]
    ensures fault.Some? ==> r == Failure(fault.value)
  {
    match fault
    case Some(detail) => Failure(detail)
    case None => if id in dir then Success(dir[id]) else Failure(NotFoundDetail)
  }

  /** `createParticipantContext(manifest)`: the service rejects a duplicate id;
      otherwise `outcome` is its answer, and on success the new context is
      stored under the manifest's id with the alias the service chose.
      Returns the new directory and the result. */
  function CreateParticipantContext(dir: ParticipantDirectory, m: ParticipantManifest, outcome: Result<GeneratedKey>)
    : (r: (ParticipantDirectory, Result<GeneratedKey>))
    ensures m.participantId in dir ==> r == (dir, Failure(DuplicateDetail))
    ensures m.participantId !in dir ==> r.1 == outcome
    ensures r.1.Failure? ==> r.0 == dir
    ensures r.1.Success? ==> r.0 == dir[m.participantId := ParticipantContext(m, r.1.value.apiTokenAlias)]
    ensures r.1.Success? ==> m.participantId !in dir && r.0.Keys == dir.Keys + {m.participantId}
    ensures Consistent(dir) ==> Consistent(r.0)
  {
    if m.participantId in dir then
      (dir, Failure(DuplicateDetail))
    else
      match outcome
      case Failure(detail) => (dir, Failure(detail))
      case Success(generated) =>
        (dir[m.participantId := ParticipantContext(m, generated.apiTokenAlias)], Success(generated))
  }
}
