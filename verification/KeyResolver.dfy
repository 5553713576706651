/** pkg/webhook/keyresolver.go: which key a TSecret is encrypted with. */
module KeyResolver {
  import opened Common
  import opened Base64
  import Crypto

  datatype WrappedKey = WrappedKey(name: string, key: string, namespace: string)

  datatype VaultTransitRef = VaultTransitRef(store: string, wrapped: WrappedKey)

  datatype EncryptionRef = EncryptionRef(
    provider: string,
    name: string,
    namespace: string,
    vaultTransit: Option<VaultTransitRef>)

  datatype ObjectKey = ObjectKey(namespace: string, name: string)

  /** What the resolver can read: Secrets, and a Vault that unwraps data keys. The arguments of
      `unwrap` are the store, the namespace it is looked up in, the transit key and the ciphertext. */
  datatype Cluster = Cluster(
    secrets: map<ObjectKey, map<string, Bytes>>,
    unwrap: (string, string, string, Bytes) -> Option<Bytes>)

  const FIELD := "encryption-key"

  function OrElse(s: string, default: string): string {
    if s == "" then default else s
  }

  function Resolve(c: Cluster, ref: EncryptionRef, namespace: string): Result<Bytes> {
    if ref.provider == "sealed-secret" then
      FromSecret(c, ObjectKey(OrElse(ref.namespace, namespace), ref.name))
    else if ref.provider == "vault-transit" then FromTransit(c, ref, namespace)
    else if ref.provider == "aws-kms" || ref.provider == "azure-keyvault"
            || ref.provider == "gcp-kms" || ref.provider == "vault-transit-legacy" then
      Err("not implemented yet")
    else Err("unsupported key provider")
  }

  function Sized(key: Bytes): Result<Bytes> {
    if |key| == Crypto.KEY_SIZE then Ok(key) else Err("wrong size")
  }

  function FromSecret(c: Cluster, at: ObjectKey): Result<Bytes> {
    if at !in c.secrets then Err("failed to get encryption key secret")
    else if FIELD !in c.secrets[at] then Err("no encryption-key field")
    else Sized(c.secrets[at][FIELD])
  }

  function FromTransit(c: Cluster, ref: EncryptionRef, namespace: string): Result<Bytes> {
    match ref.vaultTransit
    case None => Err("vault-transit requires encryptionRef.vaultTransit")
    case Some(transit) =>
      var at := ObjectKey(OrElse(transit.wrapped.namespace, namespace), transit.wrapped.name);
      if ref.name == "" then Err("vault-transit requires encryptionRef.name")
      else if at !in c.secrets then Err("failed to get wrapped DEK secret")
      else if transit.wrapped.key !in c.secrets[at] then Err("no such key")
      else
        match c.unwrap(transit.store, namespace, ref.name, c.secrets[at][transit.wrapped.key])
        case None => Err("vault transit decrypt")
        case Some(key) => Sized(key)
  }

  /** Every resolved key fits both ciphers, whichever branch it came from. */
  lemma ResolvedSize(c: Cluster, ref: EncryptionRef, namespace: string)
    ensures Resolve(c, ref, namespace).Ok? ==> |Resolve(c, ref, namespace).value| == Crypto.KEY_SIZE
  {
  }

  /** A sealed-secret key is found exactly if the Secret in the reference's own namespace, or else in
      the caller's, has a field of 32 bytes; then that field is the key. */
  lemma SealedIff(c: Cluster, ref: EncryptionRef, namespace: string, key: Bytes)
    requires ref.provider == "sealed-secret"
    ensures Resolve(c, ref, namespace) == Ok(key)
       <==> exists ns :: (ref.namespace == ns || (ref.namespace == "" && ns == namespace))
                         && (ref.namespace != "" || ns == namespace)
                         && ObjectKey(ns, ref.name) in c.secrets
                         && "encryption-key" in c.secrets[ObjectKey(ns, ref.name)]
                         && c.secrets[ObjectKey(ns, ref.name)]["encryption-key"] == key
                         && |key| == 32
  {
    var ns := OrElse(ref.namespace, namespace);
    if Resolve(c, ref, namespace) == Ok(key) {
      assert ObjectKey(ns, ref.name) in c.secrets;
    }
  }

  /** A vault-transit key is found exactly if the reference names a transit key and a wrapped key, the Secret
      in the wrapped key's own namespace, or else the caller's, has the named field, and the Vault, asked
      with the store, the caller's namespace and the transit key, unwraps that field to 32 bytes; these
      are the key. */
  lemma TransitIff(c: Cluster, ref: EncryptionRef, namespace: string, key: Bytes)
    requires ref.provider == "vault-transit"
    ensures Resolve(c, ref, namespace) == Ok(key)
       <==> (&& ref.name != "" && ref.vaultTransit.Some? && |key| == 32
             && var transit := ref.vaultTransit.value;
                exists ns :: (if transit.wrapped.namespace != "" then ns == transit.wrapped.namespace
                              else ns == namespace)
                             && ObjectKey(ns, transit.wrapped.name) in c.secrets
                             && transit.wrapped.key in c.secrets[ObjectKey(ns, transit.wrapped.name)]
                             && c.unwrap(transit.store, namespace, ref.name,
                                         c.secrets[ObjectKey(ns, transit.wrapped.name)][transit.wrapped.key])
                                == Some(key))
  {
    if ref.vaultTransit.Some? {
      var wrapped := ref.vaultTransit.value.wrapped;
      var ns := OrElse(wrapped.namespace, namespace);
      if Resolve(c, ref, namespace) == Ok(key) {
        assert ObjectKey(ns, wrapped.name) in c.secrets;
      }
    }
  }

  /** No other provider gives a key. */
  lemma OtherProviders(c: Cluster, ref: EncryptionRef, namespace: string)
    ensures Resolve(c, ref, namespace).Ok? ==> ref.provider == "sealed-secret" || ref.provider == "vault-transit"
  {
  }

  /** Naming the caller's namespace in a reference changes nothing: defaulting is transparent. */
  lemma NamespaceDefaults(c: Cluster, ref: EncryptionRef, namespace: string)
    requires ref.namespace == "" && ref.provider == "sealed-secret"
    ensures Resolve(c, ref, namespace) == Resolve(c, ref.(namespace := namespace), namespace)
  {
  }
}
