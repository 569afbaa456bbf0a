/** The secret store over the encrypting service over one versioned table. Secrets live in
    "<namespace>_secrets" and are sealed there; the two layers together are proved to be
    two separate plain versioned stores, one for secrets and one for ordinary keys. */
module SecretStore {
  import opened Common
  import opened VersionedStore

  datatype Name = Name(namespace: string, key: string)

  const SUFFIX := "_secrets"

  /** An authenticated cipher, seen through the two calls the service makes. */
  datatype Aead = Aead(
    nonceSize: nat,
    seal: (Bytes, Bytes) -> Bytes,
    open: (Bytes, Bytes) -> Option<Bytes>)

  /** The one law assumed of the cipher: opening with the sealing nonce gives the plaintext. */
  ghost predicate OpenUndoesSeal(a: Aead) {
    forall nonce, plain | |nonce| == a.nonceSize :: a.open(nonce, a.seal(nonce, plain)) == Some(plain)
  }

  function Encrypt(a: Aead, nonce: Bytes, plain: Bytes): Bytes {
    nonce + a.seal(nonce, plain)
  }

  function Decrypt(a: Aead, data: Bytes): Option<Bytes> {
    if |data| < a.nonceSize then None
    else a.open(data[..a.nonceSize], data[a.nonceSize..])
  }

  lemma DecryptUndoesEncrypt(a: Aead, nonce: Bytes, plain: Bytes)
    requires OpenUndoesSeal(a) && |nonce| == a.nonceSize
    ensures Decrypt(a, Encrypt(a, nonce, plain)) == Some(plain)
  {
    var data := Encrypt(a, nonce, plain);
    assert data[..a.nonceSize] == nonce && data[a.nonceSize..] == a.seal(nonce, plain);
  }

  // ---- Namespaces --------------------------------------------------------------------

  predicate IsSecret(namespace: string) {
    |SUFFIX| <= |namespace| && namespace[|namespace| - |SUFFIX|..] == SUFFIX
  }

  function SecretNamespace(namespace: string): string {
    if namespace == "system" then "system_secrets"
    else if namespace == "user" then "user_secrets"
    else namespace + SUFFIX
  }

  function Hidden(n: Name): Name {
    Name(SecretNamespace(n.namespace), n.key)
  }

  lemma SecretNamespaceIsSuffix(namespace: string)
    ensures SecretNamespace(namespace) == namespace + SUFFIX
    ensures IsSecret(SecretNamespace(namespace))
  {
  }

  /** Distinct logical namespaces stay distinct, the named constants included. */
  lemma HiddenInjective(m: Name, n: Name)
    requires Hidden(m) == Hidden(n)
    ensures m == n
  {
    SecretNamespaceIsSuffix(m.namespace);
    SecretNamespaceIsSuffix(n.namespace);
    var hidden := Hidden(m).namespace;
    assert m.namespace == hidden[..|hidden| - |SUFFIX|] == n.namespace;
  }

  /** A plain key can meet a secret in the shared table exactly when the plain namespace
      itself ends in the secret suffix. */
  lemma CollidesIffSuffixed(plain: Name)
    ensures (exists n :: Hidden(n) == plain) <==> IsSecret(plain.namespace)
  {
    if IsSecret(plain.namespace) {
      var n := Name(plain.namespace[..|plain.namespace| - |SUFFIX|], plain.key);
      SecretNamespaceIsSuffix(n.namespace);
      assert Hidden(n) == plain;
    }
    forall n | Hidden(n) == plain ensures IsSecret(plain.namespace) {
      SecretNamespaceIsSuffix(n.namespace);
    }
  }

  // ---- The service -------------------------------------------------------------------

  datatype Outcome =
    | Ok(answer: Answer)
    | Disabled        // a secret namespace without a cipher
    | NoNonce         // the random source failed
    | Unreadable      // the stored bytes do not decrypt

  datatype Served = Served(table: Table<Name>, outcome: Outcome)

  /** One call of the encrypting service; `nonce` is what the random source yields. */
  function Serve(cipher: Option<Aead>, t: Table<Name>, op: Op<Name>, nonce: Option<Bytes>): Served {
    match op
    case Write(n, value, expected) =>
      if !IsSecret(n.namespace) then Served(After(t, op), Ok(Reply(t, op)))
      else if cipher.None? then Served(t, Disabled)
      else if nonce.None? then Served(t, NoNonce)
      else
        var sealed := Op.Write(n, Encrypt(cipher.value, nonce.value, value), expected);
        Served(After(t, sealed), Ok(Reply(t, sealed)))
    case Get(n) =>
      if n !in t || !IsSecret(n.namespace) then Served(t, Ok(Reply(t, op)))
      else if cipher.None? then Served(t, Disabled)
      else
        (match Decrypt(cipher.value, t[n].value)
         case None => Served(t, Unreadable)
         case Some(plain) => Served(t, Ok(Found(Entry(plain, t[n].version)))))
    case Delete(_, _) => Served(After(t, op), Ok(Reply(t, op)))
  }

  function Hide(op: Op<Name>): Op<Name> {
    match op
    case Get(n) => Op.Get(Hidden(n))
    case Write(n, value, expected) => Op.Write(Hidden(n), value, expected)
    case Delete(n, expected) => Op.Delete(Hidden(n), expected)
  }

  /** A client command: through the secret store, or straight to the service. */
  datatype Command = Secret(op: Op<Name>, nonce: Bytes) | Plain(op: Op<Name>)

  function Execute(cipher: Option<Aead>, t: Table<Name>, cmd: Command): Served {
    match cmd
    case Secret(op, nonce) => Serve(cipher, t, Hide(op), Some(nonce))
    case Plain(op) => Serve(cipher, t, op, None)
  }

  /** Without a cipher the shared table never changes through the secret store, except that
      a delete still removes; and a write always reports that encryption is off. */
  lemma NoCipherNoChange(t: Table<Name>, op: Op<Name>, nonce: Option<Bytes>)
    ensures !op.Delete? ==> Serve(None, t, Hide(op), nonce).table == t
    ensures op.Write? ==> Serve(None, t, Hide(op), nonce).outcome == Disabled
    ensures op.Get? ==>
              Serve(None, t, Hide(op), nonce).outcome == if Hidden(op.key) in t then Disabled else Ok(Missing)
  {
    SecretNamespaceIsSuffix(op.key.namespace);
  }

  /** A secret write that is accepted stores the nonce followed by the sealed value, at the next
      version, which is the one it reports. */
  lemma StoredSealed(a: Aead, t: Table<Name>, op: Op<Name>, nonce: Bytes)
    requires op.Write? && Execute(Some(a), t, Secret(op, nonce)).outcome.Ok?
    requires Execute(Some(a), t, Secret(op, nonce)).outcome.answer.Written?
    ensures var served := Execute(Some(a), t, Secret(op, nonce));
            && Hidden(op.key) in served.table
            && served.table[Hidden(op.key)] ==
                 Entry(nonce + a.seal(nonce, op.value), Version(t, Hidden(op.key)) + 1)
            && served.outcome.answer == Written(Version(t, Hidden(op.key)) + 1)
  {
    SecretNamespaceIsSuffix(op.key.namespace);
  }

  /** A stored secret that is too short to hold a nonce, or that the cipher does not open, is
      reported as such and left alone. */
  lemma CorruptIsReported(a: Aead, t: Table<Name>, n: Name, nonce: Bytes)
    requires Hidden(n) in t
    requires var data := t[Hidden(n)].value;
             |data| < a.nonceSize || a.open(data[..a.nonceSize], data[a.nonceSize..]).None?
    ensures Execute(Some(a), t, Secret(Op.Get(n), nonce)) == Served(t, Unreadable)
  {
    SecretNamespaceIsSuffix(n.namespace);
  }

  // ---- Two plain stores --------------------------------------------------------------

  /** Secret `n` is in the table under its hidden name, sealed, at the same version. */
  ghost predicate HoldsSecret(a: Aead, t: Table<Name>, secrets: Table<Name>, n: Name) {
    && (n in secrets <==> Hidden(n) in t)
    && (n in secrets ==>
          && t[Hidden(n)].version == secrets[n].version
          && Decrypt(a, t[Hidden(n)].value) == Some(secrets[n].value))
  }

  /** An ordinary name is in the table as it is; a secret namespace holds no ordinary name. */
  ghost predicate HoldsPlain(t: Table<Name>, plain: Table<Name>, n: Name) {
    if IsSecret(n.namespace) then n !in plain
    else (n in plain <==> n in t) && (n in plain ==> plain[n] == t[n])
  }

  ghost predicate Represents(a: Aead, t: Table<Name>, secrets: Table<Name>, plain: Table<Name>) {
    && (forall n :: HoldsSecret(a, t, secrets, n))
    && (forall n :: HoldsPlain(t, plain, n))
  }

  lemma SecretServed(a: Aead, t: Table<Name>, secrets: Table<Name>, op: Op<Name>, nonce: Bytes)
    requires OpenUndoesSeal(a) && |nonce| == a.nonceSize && HoldsSecret(a, t, secrets, op.key)
    ensures Execute(Some(a), t, Secret(op, nonce)).outcome == Ok(Reply(secrets, op))
    ensures HoldsSecret(a, Execute(Some(a), t, Secret(op, nonce)).table, After(secrets, op), op.key)
  {
    SecretNamespaceIsSuffix(op.key.namespace);
    if op.Write? {
      DecryptUndoesEncrypt(a, nonce, op.value);
    }
  }

  /** An operation changes its own key's entry and no other. */
  lemma OthersUntouched(t: Table<Name>, op: Op<Name>, n: Name)
    requires n != op.key
    ensures n in After(t, op) <==> n in t
    ensures n in t ==> After(t, op)[n] == t[n]
  {
  }

  lemma ServedTouchesOne(cipher: Option<Aead>, t: Table<Name>, op: Op<Name>, nonce: Option<Bytes>, n: Name)
    requires n != op.key
    ensures n in Serve(cipher, t, op, nonce).table <==> n in t
    ensures n in t ==> Serve(cipher, t, op, nonce).table[n] == t[n]
  {
  }

  /** One secret-store call is one atomic operation on the plain secrets, and touches no
      ordinary key. */
  lemma SecretRefines(a: Aead, t: Table<Name>, secrets: Table<Name>, plain: Table<Name>, op: Op<Name>, nonce: Bytes)
    requires OpenUndoesSeal(a) && |nonce| == a.nonceSize && Represents(a, t, secrets, plain)
    ensures Execute(Some(a), t, Secret(op, nonce)).outcome == Ok(Reply(secrets, op))
    ensures Represents(a, Execute(Some(a), t, Secret(op, nonce)).table, After(secrets, op), plain)
  {
    var t' := Execute(Some(a), t, Secret(op, nonce)).table;
    assert HoldsSecret(a, t, secrets, op.key);
    SecretServed(a, t, secrets, op, nonce);
    forall n ensures HoldsSecret(a, t', After(secrets, op), n) {
      if n != op.key {
        if Hidden(n) == Hidden(op.key) {
          HiddenInjective(n, op.key);
        }
        assert HoldsSecret(a, t, secrets, n);
        OthersUntouched(secrets, op, n);
        ServedTouchesOne(Some(a), t, Hide(op), Some(nonce), Hidden(n));
      }
    }
    forall n ensures HoldsPlain(t', plain, n) {
      assert HoldsPlain(t, plain, n);
      SecretNamespaceIsSuffix(op.key.namespace);
      if n != Hidden(op.key) {
        ServedTouchesOne(Some(a), t, Hide(op), Some(nonce), n);
      }
    }
  }

  /** An ordinary call is one atomic operation on the ordinary store, and touches no secret. */
  lemma PlainRefines(a: Aead, t: Table<Name>, secrets: Table<Name>, plain: Table<Name>, op: Op<Name>)
    requires Represents(a, t, secrets, plain) && !IsSecret(op.key.namespace)
    ensures Execute(Some(a), t, Plain(op)).outcome == Ok(Reply(plain, op))
    ensures Represents(a, Execute(Some(a), t, Plain(op)).table, secrets, After(plain, op))
  {
    var t' := Execute(Some(a), t, Plain(op)).table;
    assert HoldsPlain(t, plain, op.key);
    forall n ensures HoldsSecret(a, t', secrets, n) {
      assert HoldsSecret(a, t, secrets, n);
      SecretNamespaceIsSuffix(n.namespace);
      ServedTouchesOne(Some(a), t, op, None, Hidden(n));
    }
    forall n ensures HoldsPlain(t', After(plain, op), n) {
      assert HoldsPlain(t, plain, n);
      if n != op.key {
        OthersUntouched(plain, op, n);
        ServedTouchesOne(Some(a), t, op, None, n);
      }
    }
  }

  predicate WellFormed(a: Aead, cmd: Command) {
    match cmd
    case Secret(_, nonce) => |nonce| == a.nonceSize
    case Plain(op) => !IsSecret(op.key.namespace)
  }

  function Outcomes(a: Aead, t: Table<Name>, cmds: seq<Command>): seq<Outcome>
    decreases |cmds|
  {
    if cmds == [] then []
    else [Execute(Some(a), t, cmds[0]).outcome]
         + Outcomes(a, Execute(Some(a), t, cmds[0]).table, cmds[1..])
  }

  /** The same commands served by two unencrypted stores that share nothing. */
  function PlainOutcomes(secrets: Table<Name>, plain: Table<Name>, cmds: seq<Command>): seq<Outcome>
    decreases |cmds|
  {
    if cmds == [] then []
    else
      match cmds[0]
      case Secret(op, _) => [Ok(Reply(secrets, op))] + PlainOutcomes(After(secrets, op), plain, cmds[1..])
      case Plain(op) => [Ok(Reply(plain, op))] + PlainOutcomes(secrets, After(plain, op), cmds[1..])
  }

  /** No sequence of secret and ordinary commands can tell the encrypted shared table from
      two separate plain stores. */
  lemma {:induction false} IndistinguishableFromTwoStores(
      a: Aead, t: Table<Name>, secrets: Table<Name>, plain: Table<Name>, cmds: seq<Command>)
    requires OpenUndoesSeal(a) && Represents(a, t, secrets, plain)
    requires forall i :: 0 <= i < |cmds| ==> WellFormed(a, cmds[i])
    ensures Outcomes(a, t, cmds) == PlainOutcomes(secrets, plain, cmds)
    decreases |cmds|
  {
    if cmds != [] {
      assert WellFormed(a, cmds[0]);
      var t' := Execute(Some(a), t, cmds[0]).table;
      match cmds[0]
      case Secret(op, nonce) =>
        SecretRefines(a, t, secrets, plain, op, nonce);
        IndistinguishableFromTwoStores(a, t', After(secrets, op), plain, cmds[1..]);
      case Plain(op) =>
        PlainRefines(a, t, secrets, plain, op);
        IndistinguishableFromTwoStores(a, t', secrets, After(plain, op), cmds[1..]);
    }
  }
}
