/** The participant manifest the seed extension submits for the super-user
    (`ParticipantManifest` and `KeyDescriptor` of the identity hub). */
module Participant {

  import opened Wrappers
  import Text

  /** Service-principal roles; the seed only ever grants the admin role. */
  datatype Role = Admin

  /** Requests a key pair: generator parameters, key id and private-key alias. */
  datatype KeyDescriptor = KeyDescriptor(
    keyGeneratorParams: map<string, string>,
    keyId: string,
    privateKeyAlias: string)

  datatype ParticipantManifest = ParticipantManifest(
    participantId: string,
    did: string,
    active: bool,
    key: KeyDescriptor,
    roles: seq<Role>)

  const DidPrefix := "did:web:"
  const KeyIdSuffix := "-key"
  const PrivateKeyAliasSuffix := "-alias"

  /** Parameters of an Ed25519 key pair for EdDSA signatures. */
  const EdDsaKeyParams: map<string, string> := map["algorithm" := "EdDSA", "curve" := "Ed25519"]

  /** The identifier recorded in a `did:web:` DID, the inverse of the manifest's
      DID construction. The DID is never resolved. */
  function DidParticipant(did: string): (r: Option<string>)
    ensures r.Some? ==> DidPrefix + r.value == did
    ensures Text.StartsWith(did, DidPrefix) ==> r.Some?
  {
    Text.StripPrefix(did, DidPrefix)
  }

  /** The manifest for the super-user: every field is derived from `id`. */
  function SuperUserManifest(id: string): (m: ParticipantManifest)
    ensures m.participantId == id && m.active
    ensures DidParticipant(m.did) == Some(id)
    ensures m.key.keyGeneratorParams.Keys == {"algorithm", "curve"}
    ensures m.key.keyGeneratorParams["algorithm"] == "EdDSA"
    ensures m.key.keyGeneratorParams["curve"] == "Ed25519"
    ensures Text.StripPrefix(m.key.keyId, id) == Some(KeyIdSuffix)
    ensures Text.StripPrefix(m.key.privateKeyAlias, id) == Some(PrivateKeyAliasSuffix)
    ensures m.roles == [Admin]
  {
    Text.StripPrefixOfPrepend(DidPrefix, id);
    Text.StripPrefixOfPrepend(id, KeyIdSuffix);
    Text.StripPrefixOfPrepend(id, PrivateKeyAliasSuffix);
    ParticipantManifest(
      id,
      DidPrefix + id,
      true,
      KeyDescriptor(EdDsaKeyParams, id + KeyIdSuffix, id + PrivateKeyAliasSuffix),
      [Admin])
  }

  /** Distinct participant ids never share a DID, a key id or a private-key
      alias. This is a consequence of the formatting, not a promise the
      extension makes: its DID is never resolved. */
  lemma SuperUserManifestInjective(a: string, b: string)
    ensures a != b ==> SuperUserManifest(a).did != SuperUserManifest(b).did
    ensures a != b ==> SuperUserManifest(a).key.keyId != SuperUserManifest(b).key.keyId
    ensures a != b ==> SuperUserManifest(a).key.privateKeyAlias != SuperUserManifest(b).key.privateKeyAlias
  {
  }
}
