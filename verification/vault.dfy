/** The secret vault as abstract state: a map from alias to secret. */
module Vault {

  import opened Wrappers

  type SecretVault = map<string, string>

  /** `storeSecret(alias, secret)`: on success the alias holds the secret and
      no other alias changes; on failure (`fault`) nothing changes. */
  function StoreSecret(vault: SecretVault, alias: string, secret: string, fault: Option<string>)
    : (r: (SecretVault, Status))
    ensures r.1.Ok? <==> fault.None?
    ensures r.1.Ok? ==> alias in r.0 && r.0[alias] == secret
    ensures r.1.Ok? ==> r.0.Keys == vault.Keys + {alias}
    ensures forall a :: a in vault && a != alias ==> a in r.0 && r.0[a] == vault[a]
    ensures r.1.Failed? ==> r.0 == vault && r.1.detail == fault.value
  {
    match fault
    case Some(detail) => (vault, Failed(detail))
    case None => (vault[alias := secret], Ok)
  }
}
