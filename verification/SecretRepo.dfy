/** The secret store over the encrypting service over the Postgres repository, with any number
    of calls of any number of deployments in flight. A client command reaches the repository
    as one call, and its answer is decoded on the way back; the two steps in between, sealing
    and opening, touch no shared state. */
module SecretRepo {
  import opened Common
  import opened VersionedStore
  import KvRepo
  import opened SecretStore

  /** A command issued by a deployment. */
  datatype Client = Client(deployment: string, cmd: Command)

  /** The repository operation a command becomes. */
  function Wire(a: Aead, cmd: Command): Op<Name> {
    match cmd
    case Plain(op) => op
    case Secret(op, nonce) =>
      match op
      case Get(n) => Op.Get(Hidden(n))
      case Write(n, value, expected) => Op.Write(Hidden(n), Encrypt(a, nonce, value), expected)
      case Delete(n, expected) => Op.Delete(Hidden(n), expected)
  }

  /** What the client is told when the repository answers so. */
  function Decoded(a: Aead, cmd: Command, answer: Answer): Outcome {
    if cmd.Secret? && answer.Found? then
      match Decrypt(a, answer.entry.value)
      case None => Unreadable
      case Some(plain) => Ok(Found(Entry(plain, answer.entry.version)))
    else Ok(answer)
  }

  function At(deployment: string, n: Name): KvRepo.Key {
    KvRepo.Key(deployment, n.namespace, n.key)
  }

  function Addressed(deployment: string, op: Op<Name>): KvRepo.KvOp {
    match op
    case Get(n) => Op.Get(At(deployment, n))
    case Write(n, value, expected) => Op.Write(At(deployment, n), value, expected)
    case Delete(n, expected) => Op.Delete(At(deployment, n), expected)
  }

  function Request(a: Aead, client: Client): KvRepo.KvOp {
    Addressed(client.deployment, Wire(a, client.cmd))
  }

  /** Serving a command on a table alone is its repository operation, decoded. */
  lemma ServedIsWire(a: Aead, t: Table<Name>, cmd: Command)
    requires WellFormed(a, cmd)
    ensures Execute(Some(a), t, cmd).table == After(t, Wire(a, cmd))
    ensures Execute(Some(a), t, cmd).outcome == Decoded(a, cmd, Reply(t, Wire(a, cmd)))
  {
    if cmd.Secret? {
      SecretNamespaceIsSuffix(cmd.op.key.namespace);
    }
  }

  // ---- One deployment's part of the shared table ---------------------------------------

  /** Table `t` is what the rows hold for this deployment. */
  ghost predicate Views(rows: KvRepo.Rows, deployment: string, t: Table<Name>) {
    forall n :: SameEntry(rows, deployment, t, n)
  }

  predicate SameEntry(rows: KvRepo.Rows, deployment: string, t: Table<Name>, n: Name) {
    && (n in t <==> At(deployment, n) in rows)
    && (n in t ==> t[n] == rows[At(deployment, n)])
  }

  lemma ViewedReply(rows: KvRepo.Rows, deployment: string, t: Table<Name>, op: Op<Name>)
    requires Views(rows, deployment, t)
    ensures Reply(rows, Addressed(deployment, op)) == Reply(t, op)
  {
    assert SameEntry(rows, deployment, t, op.key);
  }

  lemma ViewedAfter(rows: KvRepo.Rows, deployment: string, t: Table<Name>, op: Op<Name>)
    requires Views(rows, deployment, t)
    ensures Views(After(rows, Addressed(deployment, op)), deployment, After(t, op))
  {
    var rows', t' := After(rows, Addressed(deployment, op)), After(t, op);
    assert SameEntry(rows, deployment, t, op.key);
    forall n ensures SameEntry(rows', deployment, t', n) {
      assert SameEntry(rows, deployment, t, n);
      assert n != op.key ==> At(deployment, n) != At(deployment, op.key);
    }
  }

  lemma OtherDeploymentAfter(rows: KvRepo.Rows, deployment: string, t: Table<Name>, other: string, op: Op<Name>)
    requires Views(rows, deployment, t) && other != deployment
    ensures Views(After(rows, Addressed(other, op)), deployment, t)
  {
    var rows' := After(rows, Addressed(other, op));
    forall n ensures SameEntry(rows', deployment, t, n) {
      assert SameEntry(rows, deployment, t, n);
    }
  }

  // ---- Two plain stores per deployment -------------------------------------------------

  datatype Stores = Stores(secrets: Table<Name>, plain: Table<Name>)

  function StoresReply(st: Stores, cmd: Command): Outcome {
    Ok(Reply(if cmd.Secret? then st.secrets else st.plain, cmd.op))
  }

  function StoresAfter(st: Stores, cmd: Command): Stores {
    if cmd.Secret? then st.(secrets := After(st.secrets, cmd.op)) else st.(plain := After(st.plain, cmd.op))
  }

  /** The two plain stores of a deployment after the logged commands that are its own. */
  function StoresAt(st: Stores, log: seq<KvRepo.Commit>, client: nat -> Client, deployment: string): Stores {
    if log == [] then st
    else
      var before, last := StoresAt(st, log[..|log| - 1], client, deployment), client(log[|log| - 1].call);
      if last.deployment == deployment then StoresAfter(before, last.cmd) else before
  }

  /** Every call carries out its client's well-formed command. */
  ghost predicate Serves(a: Aead, log: seq<KvRepo.Commit>, client: nat -> Client) {
    forall i :: 0 <= i < |log| ==> log[i].op == Request(a, client(log[i].call)) && WellFormed(a, client(log[i].call).cmd)
  }

  /** The deployment's rows stand for these two plain stores. */
  ghost predicate StandsFor(a: Aead, rows: KvRepo.Rows, deployment: string, st: Stores) {
    exists t :: Views(rows, deployment, t) && Represents(a, t, st.secrets, st.plain)
  }

  lemma CommandStandsFor(a: Aead, rows: KvRepo.Rows, deployment: string, st: Stores, client: Client)
    requires OpenUndoesSeal(a) && WellFormed(a, client.cmd) && StandsFor(a, rows, deployment, st)
    ensures StandsFor(a, After(rows, Request(a, client)), deployment,
                      if client.deployment == deployment then StoresAfter(st, client.cmd) else st)
    ensures client.deployment == deployment ==>
              Decoded(a, client.cmd, Reply(rows, Request(a, client))) == StoresReply(st, client.cmd)
  {
    var t :| Views(rows, deployment, t) && Represents(a, t, st.secrets, st.plain);
    var cmd := client.cmd;
    if client.deployment == deployment {
      ServedIsWire(a, t, cmd);
      ViewedReply(rows, deployment, t, Wire(a, cmd));
      ViewedAfter(rows, deployment, t, Wire(a, cmd));
      match cmd
      case Secret(op, nonce) => SecretRefines(a, t, st.secrets, st.plain, op, nonce);
      case Plain(op) => PlainRefines(a, t, st.secrets, st.plain, op);
    } else {
      OtherDeploymentAfter(rows, deployment, t, client.deployment, Wire(a, cmd));
    }
  }

  /** A command that changes its plain store changes the shared rows. */
  lemma ChangesRows(a: Aead, rows: KvRepo.Rows, st: Stores, client: Client)
    requires StandsFor(a, rows, client.deployment, st) && WellFormed(a, client.cmd)
    requires StoresAfter(st, client.cmd) != st
    ensures After(rows, Request(a, client)) != rows
  {
    var t :| Views(rows, client.deployment, t) && Represents(a, t, st.secrets, st.plain);
    var op := client.cmd.op;
    assert HoldsSecret(a, t, st.secrets, op.key) && HoldsPlain(t, st.plain, op.key);
    var n := Wire(a, client.cmd).key;
    assert SameEntry(rows, client.deployment, t, n);
    assert Version(rows, At(client.deployment, n)) ==
           Version(if client.cmd.Secret? then st.secrets else st.plain, op.key);
  }

  lemma {:induction false} LogStandsFor(
      a: Aead, base: KvRepo.Rows, log: seq<KvRepo.Commit>, client: nat -> Client, deployment: string, st: Stores)
    requires OpenUndoesSeal(a) && Serves(a, log, client) && StandsFor(a, base, deployment, st)
    ensures StandsFor(a, KvRepo.Replay(base, log), deployment, StoresAt(st, log, client, deployment))
    decreases |log|
  {
    if log != [] {
      var front, last := log[..|log| - 1], log[|log| - 1];
      assert forall i :: 0 <= i < |front| ==> front[i] == log[i];
      LogStandsFor(a, base, front, client, deployment, st);
      CommandStandsFor(a, KvRepo.Replay(base, front), deployment, StoresAt(st, front, client, deployment), client(last.call));
    }
  }

  /** At point `p` of the log, inside the call, two plain stores that ran the commands logged
      before it give the client's answer. A command that changes its store there is the entry
      logged at that point, and the call has no entry elsewhere. */
  ghost predicate AnsweredAt(
      a: Aead, log: seq<KvRepo.Commit>, client: nat -> Client, st: Stores, c: nat, call: KvRepo.Call, p: nat)
  {
    && call.phase.Done? && call.since <= p <= call.phase.until && p <= |log|
    && KvRepo.OwnsAtMost(log, c, p, call.phase.until)
    && var now := StoresAt(st, log[..p], client, client(c).deployment);
       && Decoded(a, client(c).cmd, call.phase.answer) == StoresReply(now, client(c).cmd)
       && (StoresAfter(now, client(c).cmd) != now ==> p < call.phase.until && p < |log| && log[p].call == c)
  }

  lemma AnsweredThere(a: Aead, base: KvRepo.Rows, log: seq<KvRepo.Commit>, client: nat -> Client, st: Stores,
                      c: nat, call: KvRepo.Call, p: nat)
    requires OpenUndoesSeal(a) && StandsFor(a, base, client(c).deployment, st) && WellFormed(a, client(c).cmd)
    requires p <= |log| && Serves(a, log[..p], client) && call.op == Request(a, client(c)) && call.phase.Done?
    requires call.since <= p <= call.phase.until
    requires KvRepo.TakesEffectAt(base, log, p, c, call.op, call.phase.answer, call.phase.until)
    ensures AnsweredAt(a, log, client, st, c, call, p)
  {
    var before, deployment := log[..p], client(c).deployment;
    var now := StoresAt(st, before, client, deployment);
    LogStandsFor(a, base, before, client, deployment, st);
    CommandStandsFor(a, KvRepo.Replay(base, before), deployment, now, client(c));
    if StoresAfter(now, client(c).cmd) != now {
      ChangesRows(a, KvRepo.Replay(base, before), now, client(c));
    }
  }

  /** Under every interleaving of the calls of every deployment, the encrypted shared table
      answers each command as two separate plain stores of its deployment would at one point
      inside the call; the only exception is the conflict on deleting version 1. */
  lemma EveryAnswerIsTwoStores(
      a: Aead, base: KvRepo.Rows, run: seq<KvRepo.State>, client: nat -> Client, st: Stores, c: nat) returns (p: nat)
    requires OpenUndoesSeal(a) && KvRepo.Run(base, run) && c in KvRepo.Last(run).calls
    requires forall d :: d in KvRepo.Last(run).calls ==>
               KvRepo.Last(run).calls[d].op == Request(a, client(d)) && WellFormed(a, client(d).cmd)
    requires StandsFor(a, base, client(c).deployment, st)
    requires KvRepo.Last(run).calls[c].phase.Done? && !KvRepo.MaybeSpurious(KvRepo.Last(run).calls[c])
    ensures AnsweredAt(a, KvRepo.Last(run).log, client, st, c, KvRepo.Last(run).calls[c], p)
  {
    KvRepo.AnswersLinearize(base, run);
    var log, call := KvRepo.Last(run).log, KvRepo.Last(run).calls[c];
    p :| && call.since <= p <= call.phase.until <= |log|
         && KvRepo.TakesEffectAt(base, log, p, c, call.op, call.phase.answer, call.phase.until);
    assert Serves(a, log[..p], client);
    AnsweredThere(a, base, log, client, st, c, call, p);
  }
}
