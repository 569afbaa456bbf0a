/** The deployment lifecycle: Deploy, Scale, Rollout and Undeploy over the database and the
    cluster, with the snapshot and secret services that share their state. Every call to the
    database or the cluster may fail; a call that fails changes nothing. */
module Lifecycle {
  import opened Common
  import Slug

  type Id = nat

  /** A slug or a subdomain; the empty one stands for none. */
  datatype Label = Label(text: string)

  const NO_LABEL := Label("")

  datatype EnvVar = HttpPort | HttpHost | Other(name: nat)
  datatype Binding = Literal(value: nat) | SecretRef(key: nat)
  type Env = map<EnvVar, Binding>

  // ---- The database ------------------------------------------------------------------

  /** A definition is known by the HTTP port it declares; zero is none. */
  datatype Integration = Integration(name: string, port: nat)
  datatype Snapshot = Snapshot(integration: Id, tag: nat, port: nat)
  datatype Settings = Settings(replicas: int, subdomain: Label, env: Env, snapshot: Id)
  datatype Metadata = Metadata(name: string, slug: Label, snapshot: Id, tag: nat)
  datatype Row = Row(integration: Id, settings: Settings, meta: Metadata)

  type Rows = map<Id, Row>

  /** `catalog` lists the names of the secrets, whose values are in the cluster alone. */
  datatype Db = Db(
    integrations: map<Id, Integration>,
    snapshots: map<Id, Snapshot>,
    rows: Rows,
    catalog: set<nat>,
    next: Id)

  // ---- The cluster -------------------------------------------------------------------

  datatype Workload = Workload(definition: Id, replicas: int, env: Env)

  /** Objects named from a deployment id, the internal Services named from a slug with the
      deployment each selects, and the keys of the shared Secret. */
  datatype Cluster = Cluster(
    configMaps: map<Id, Id>,
    workloads: map<Id, Workload>,
    services: set<Id>,
    ingresses: map<Id, Label>,
    internal: map<Label, Id>,
    secrets: set<nat>)

  datatype Kind = ConfigMap | Deployment | Service | Ingress

  datatype Call =
    | GetIntegration | GetSnapshot | GetRow | SecretLookup | SlugLookup(attempt: nat) | SubdomainLookup
    | ReferenceLookup
    | CreateRow | DeleteRow | UpdateMetadata | UpdateSettings
    | CreateObject(kind: Kind) | CreateInternal | DeleteObject(kind: Kind) | DeleteInternal
    | PatchReplicas | ReadConfigMap | UpdateConfigMap | ReadWorkload | UpdateWorkload
    | WriteSnapshot | WriteIntegration | WriteSecret | WriteCatalog

  // ---- What holds between requests ----------------------------------------------------

  /** The snapshot a row records exists, is of the row's integration, and is networked exactly
      when the row has a slug. */
  predicate SnapshotOk(snapshots: map<Id, Snapshot>, row: Row, snapshot: Id) {
    && snapshot in snapshots && snapshots[snapshot].integration == row.integration
    && (snapshots[snapshot].port > 0 <==> row.meta.slug != NO_LABEL)
  }

  predicate RowOk(snapshots: map<Id, Snapshot>, row: Row) {
    && SnapshotOk(snapshots, row, row.meta.snapshot) && SnapshotOk(snapshots, row, row.settings.snapshot)
    && row.meta.tag == snapshots[row.meta.snapshot].tag
    && (row.settings.subdomain != NO_LABEL ==> row.meta.slug != NO_LABEL) && row.settings.replicas >= 1
    && Slug.Canonical(row.meta.slug.text)
  }

  ghost predicate SlugsUnique(rows: Rows) {
    forall a, b :: a in rows && b in rows && a != b && rows[a].meta.slug != NO_LABEL ==>
      rows[a].meta.slug != rows[b].meta.slug
  }

  ghost predicate SubdomainsOwned(rows: Rows) {
    forall a, b :: a in rows && b in rows && rows[a].settings.subdomain != NO_LABEL
                   && rows[a].settings.subdomain == rows[b].settings.subdomain ==>
      rows[a].integration == rows[b].integration
  }

  ghost predicate TagsUnique(snapshots: map<Id, Snapshot>) {
    forall a, b :: a in snapshots && b in snapshots && a != b && snapshots[a].integration == snapshots[b].integration ==>
      snapshots[a].tag != snapshots[b].tag
  }

  ghost predicate DbInv(db: Db) {
    && TagsUnique(db.snapshots)
    && (forall id :: id in db.rows ==> id < db.next && RowOk(db.snapshots, db.rows[id]))
    && (forall id :: id in db.snapshots ==> id < db.next && db.snapshots[id].integration in db.integrations)
    && SlugsUnique(db.rows) && SubdomainsOwned(db.rows)
  }

  ghost predicate EnvBound(env: Env, secrets: set<nat>) {
    forall v :: v in env && env[v].SecretRef? ==> env[v].key in secrets
  }

  /** Every secret a row binds exists in the cluster. */
  ghost predicate SecretsBound(rows: Rows, secrets: set<nat>) {
    forall id :: id in rows ==> EnvBound(rows[id].settings.env, secrets)
  }

  /** The internal Services are exactly the slugs of the networked rows, each selecting its own
      deployment. */
  ghost predicate ServicesMatch(rows: Rows, internal: map<Label, Id>) {
    && (forall slug :: slug in internal ==>
          slug != NO_LABEL && internal[slug] in rows && rows[internal[slug]].meta.slug == slug)
    && (forall id :: id in rows && rows[id].meta.slug != NO_LABEL ==>
          rows[id].meta.slug in internal && internal[rows[id].meta.slug] == id)
  }

  /** Some object named from `id` exists. */
  predicate HasObjects(c: Cluster, id: Id) {
    id in c.configMaps || id in c.workloads || id in c.services || id in c.ingresses
  }

  ghost predicate NoStrays(rows: Rows, c: Cluster) {
    forall id :: HasObjects(c, id) ==> id in rows
  }

  ghost predicate ClusterInv(rows: Rows, c: Cluster) {
    ServicesMatch(rows, c.internal) && NoStrays(rows, c)
  }

  /** What runs under `id` is what the row records. */
  predicate Runs(rows: Rows, c: Cluster, id: Id) {
    && id in rows && id in c.configMaps && id in c.workloads
    && c.configMaps[id] == rows[id].meta.snapshot
    && c.workloads[id] == Workload(rows[id].meta.snapshot, rows[id].settings.replicas, rows[id].settings.env)
  }

  /** Nothing but the objects named from `id` and the internal Service of `slug` differs. */
  ghost predicate OthersSame(c: Cluster, c': Cluster, id: Id, slug: Label) {
    && c'.configMaps - {id} == c.configMaps - {id} && c'.workloads - {id} == c.workloads - {id}
    && c'.services - {id} == c.services - {id} && c'.ingresses - {id} == c.ingresses - {id}
    && c'.internal - {slug} == c.internal - {slug} && c'.secrets == c.secrets
  }

  // ---- One change at a time ------------------------------------------------------------

  /** A new row fits when its snapshots do, its slug is free, and its subdomain is free or
      its own integration's. */
  ghost predicate Fits(db: Db, row: Row) {
    && RowOk(db.snapshots, row)
    && (forall id :: id in db.rows && row.meta.slug != NO_LABEL ==> db.rows[id].meta.slug != row.meta.slug)
    && (forall id :: id in db.rows && row.settings.subdomain != NO_LABEL
                     && db.rows[id].settings.subdomain == row.settings.subdomain ==>
          db.rows[id].integration == row.integration)
  }

  lemma AddRowKeepsDb(db: Db, row: Row)
    requires DbInv(db) && Fits(db, row)
    ensures DbInv(db.(rows := db.rows[db.next := row], next := db.next + 1))
  {
  }

  lemma DropRowKeepsDb(db: Db, id: Id)
    requires DbInv(db)
    ensures DbInv(db.(rows := db.rows - {id}))
  {
  }

  /** The same integration under the same slug and subdomain, with the same env bindings. */
  predicate SameAddress(a: Row, b: Row) {
    && a.integration == b.integration && a.meta.slug == b.meta.slug
    && a.settings.subdomain == b.settings.subdomain && a.settings.env == b.settings.env
  }

  lemma RewriteRowKeepsDb(db: Db, id: Id, row: Row)
    requires DbInv(db) && id in db.rows && RowOk(db.snapshots, row) && SameAddress(db.rows[id], row)
    ensures DbInv(db.(rows := db.rows[id := row]))
  {
    var rows := db.rows[id := row];
    forall a | a in rows ensures rows[a].integration == db.rows[a].integration
      && rows[a].meta.slug == db.rows[a].meta.slug && rows[a].settings.subdomain == db.rows[a].settings.subdomain
    {
    }
  }

  lemma RewriteRowKeepsCluster(rows: Rows, c: Cluster, id: Id, row: Row)
    requires ClusterInv(rows, c) && id in rows && row.meta.slug == rows[id].meta.slug
    ensures ClusterInv(rows[id := row], c)
  {
  }

  lemma RewriteRowKeeps(db: Db, c: Cluster, id: Id, row: Row)
    requires DbInv(db) && id in db.rows && RowOk(db.snapshots, row) && SameAddress(db.rows[id], row)
    ensures DbInv(db.(rows := db.rows[id := row]))
    ensures SecretsBound(db.rows, c.secrets) ==> SecretsBound(db.rows[id := row], c.secrets)
    ensures ClusterInv(db.rows, c) ==> ClusterInv(db.rows[id := row], c)
  {
    RewriteRowKeepsDb(db, id, row);
    if ClusterInv(db.rows, c) { RewriteRowKeepsCluster(db.rows, c, id, row); }
  }

  /** A row and its internal Service come together. */
  lemma AddRowKeepsCluster(rows: Rows, c: Cluster, c': Cluster, id: Id, row: Row)
    requires ClusterInv(rows, c) && id !in rows && OthersSame(c, c', id, row.meta.slug)
    requires forall a :: a in rows && row.meta.slug != NO_LABEL ==> rows[a].meta.slug != row.meta.slug
    requires row.meta.slug == NO_LABEL ==> c'.internal == c.internal
    requires row.meta.slug != NO_LABEL ==> row.meta.slug in c'.internal && c'.internal[row.meta.slug] == id
    ensures ClusterInv(rows[id := row], c')
  {
    forall slug | slug in c'.internal && slug != row.meta.slug ensures slug in c.internal && c.internal[slug] == c'.internal[slug] {
      assert slug in c'.internal - {row.meta.slug};
    }
    forall slug | slug in c.internal && slug != row.meta.slug ensures slug in c'.internal && c'.internal[slug] == c.internal[slug] {
      assert slug in c.internal - {row.meta.slug};
    }
    forall other | HasObjects(c', other) && other != id ensures HasObjects(c, other) {
      OtherObjectsSame(c, c', id, row.meta.slug, other);
    }
  }

  lemma OtherObjectsSame(c: Cluster, c': Cluster, id: Id, slug: Label, other: Id)
    requires OthersSame(c, c', id, slug) && other != id
    ensures HasObjects(c', other) <==> HasObjects(c, other)
  {
    assert other in c'.configMaps <==> other in c'.configMaps - {id};
    assert other in c'.workloads <==> other in c'.workloads - {id};
    assert other in c'.services <==> other in c'.services - {id};
    assert other in c'.ingresses <==> other in c'.ingresses - {id};
    assert other in c.configMaps <==> other in c.configMaps - {id};
    assert other in c.workloads <==> other in c.workloads - {id};
    assert other in c.services <==> other in c.services - {id};
    assert other in c.ingresses <==> other in c.ingresses - {id};
  }

  /** After an undeploy removed a row and every object named from its id, the cluster matches
      the database again exactly when the row's internal Service is gone too. */
  lemma DropRowClusterIff(rows: Rows, c: Cluster, c': Cluster, id: Id)
    requires SlugsUnique(rows) && ClusterInv(rows, c) && id in rows && !HasObjects(c', id)
    requires OthersSame(c, c', id, rows[id].meta.slug)
    requires c'.internal == c.internal || c'.internal == c.internal - {rows[id].meta.slug}
    ensures ClusterInv(rows - {id}, c') <==> rows[id].meta.slug == NO_LABEL || rows[id].meta.slug !in c'.internal
  {
    var slug := rows[id].meta.slug;
    forall other | HasObjects(c', other) ensures other in rows - {id} {
      OtherObjectsSame(c, c', id, slug, other);
    }
    if slug != NO_LABEL && slug in c'.internal {
      assert c'.internal[slug] == id && id !in rows - {id};
    }
  }

  // ---- Requests and answers -----------------------------------------------------------

  datatype Wanted = Wanted(replicas: int, external: bool, subdomain: string, slug: string, env: Env, snapshot: Option<Id>)

  datatype Error =
    | IntegrationNotFound | SnapshotRequired | SnapshotNotFound | SnapshotMismatch
    | ReservedEnvVar | SecretNotFound
    | InvalidSlug | SlugTaken | SlugExhausted
    | ExternalUnavailable | InvalidSubdomain | SubdomainTaken
    | NotFound | TopologyChange | SnapshotInUse | TagExists | SecretInUse
    | SlugLookupFailed | Failed(call: Call)

  datatype Result<T> = Ok(value: T) | Err(error: Error)

  type Faults = Call -> bool

  /** The calls that undo a partial deploy succeed. */
  predicate CleanupWorks(fails: Faults) {
    DeletesWork(fails) && !fails(DeleteInternal) && !fails(DeleteRow)
  }

  predicate DeletesWork(fails: Faults) {
    && !fails(DeleteObject(ConfigMap)) && !fails(DeleteObject(Deployment))
    && !fails(DeleteObject(Service)) && !fails(DeleteObject(Ingress))
  }

  /** The definition asked for declares a port. */
  predicate AsksNetworked(db: Db, want: Wanted) {
    want.snapshot.Some? && want.snapshot.value in db.snapshots && db.snapshots[want.snapshot.value].port > 0
  }

  predicate Reserved(env: Env) {
    HttpPort in env || HttpHost in env
  }

  function Claimed(rows: Rows): set<string> {
    set id | id in rows && rows[id].meta.slug != NO_LABEL :: rows[id].meta.slug.text
  }

  predicate SubdomainUsed(rows: Rows, id: Id, subdomain: Label) {
    id in rows && rows[id].settings.subdomain == subdomain
  }

  /** An error is answered only for its own reason. */
  ghost predicate Justified(lower: char -> char, externalEnabled: bool, db: Db, secrets: set<nat>,
                            integration: Id, want: Wanted, fails: Faults, e: Error)
  {
    match e
    case IntegrationNotFound => integration !in db.integrations
    case SnapshotRequired => want.snapshot.None?
    case SnapshotNotFound => want.snapshot.Some? && want.snapshot.value !in db.snapshots
    case SnapshotMismatch =>
      want.snapshot.Some? && want.snapshot.value in db.snapshots
      && db.snapshots[want.snapshot.value].integration != integration
    case ReservedEnvVar => Reserved(want.env)
    case SecretNotFound => !EnvBound(want.env, secrets)
    case InvalidSlug => want.slug != "" && Slug.SlugOf(lower, want.slug) == ""
    case SlugTaken => want.slug != "" && Slug.SlugOf(lower, want.slug) in Claimed(db.rows)
    case SlugExhausted => want.slug == "" && |Claimed(db.rows)| >= 999
    case ExternalUnavailable => want.external && !externalEnabled
    case InvalidSubdomain => want.external && want.subdomain != "" && Slug.SlugOf(lower, want.subdomain) == ""
    case SubdomainTaken =>
      want.external && exists id, slug ::
        SubdomainUsed(db.rows, id, slug) && db.rows[id].integration != integration && slug != NO_LABEL
        && (want.subdomain != "" ==> slug.text == Slug.SlugOf(lower, want.subdomain))
    case SlugLookupFailed => exists i: nat :: i <= 999 && fails(SlugLookup(i))
    case Failed(call) => fails(call)
    case _ => false
  }

  function SlugFails(fails: Faults): nat -> bool {
    (i: nat) => fails(SlugLookup(i))
  }

  ghost predicate EnvAccepted(env: Env, secrets: set<nat>, fails: Faults) {
    && !Reserved(env) && EnvBound(env, secrets)
    && (fails(SecretLookup) ==> forall v :: v in env ==> env[v].Literal?)
  }

  predicate SnapshotAccepted(db: Db, integration: Id, snapshot: Option<Id>, fails: Faults) {
    && snapshot.Some? && !fails(GetSnapshot) && snapshot.value in db.snapshots
    && db.snapshots[snapshot.value].integration == integration
  }

  /** The subdomain a deployment with this slug would get if it is external. */
  function Host(lower: char -> char, want: Wanted, slug: Label): Label {
    Label(if want.subdomain == "" then slug.text else Slug.SlugOf(lower, want.subdomain))
  }

  ghost predicate HostAccepted(lower: char -> char, externalEnabled: bool, db: Db,
                               integration: Id, want: Wanted, slug: Label, fails: Faults)
  {
    want.external ==>
      && externalEnabled
      && (slug != NO_LABEL ==>
            && Host(lower, want, slug) != NO_LABEL && !fails(SubdomainLookup)
            && forall id :: SubdomainUsed(db.rows, id, Host(lower, want, slug)) ==> db.rows[id].integration == integration)
  }

  /** A deploy request that passes every check, given which lookups fail. */
  ghost predicate Accepted(lower: char -> char, externalEnabled: bool, db: Db, secrets: set<nat>,
                           integration: Id, want: Wanted, fails: Faults)
  {
    && !fails(GetIntegration) && integration in db.integrations
    && SnapshotAccepted(db, integration, want.snapshot, fails) && EnvAccepted(want.env, secrets, fails)
    && var slug :=
         if !AsksNetworked(db, want) then Some("")
         else Slug.SlugChoice(lower, want.slug, db.integrations[integration].name, Claimed(db.rows), SlugFails(fails));
       slug.Some? && HostAccepted(lower, externalEnabled, db, integration, want, Label(slug.value), fails)
  }

  /** The row asked for: the snapshot's definition, a slug exactly when it is networked, and a
      subdomain exactly when it is also to be external. */
  ghost predicate AsWanted(lower: char -> char, db: Db, integration: Id, want: Wanted, row: Row) {
    && row.integration == integration && want.snapshot == Some(row.meta.snapshot)
    && integration in db.integrations && row.meta.name == db.integrations[integration].name
    && row.settings.snapshot == row.meta.snapshot
    && row.settings.replicas == (if want.replicas < 1 then 1 else want.replicas) && row.settings.env == want.env
    && Slug.Canonical(row.meta.slug.text) && Slug.Canonical(row.settings.subdomain.text)
    && (row.meta.slug != NO_LABEL && want.slug != "" ==> row.meta.slug.text == Slug.SlugOf(lower, want.slug))
    && (row.settings.subdomain != NO_LABEL <==> want.external && row.meta.slug != NO_LABEL)
    && (row.settings.subdomain != NO_LABEL ==>
          row.settings.subdomain.text == if want.subdomain == "" then row.meta.slug.text else Slug.SlugOf(lower, want.subdomain))
  }

  predicate External(row: Row, externalEnabled: bool) {
    row.settings.subdomain != NO_LABEL && externalEnabled
  }

  /** The deployment has its Service, an internal Service under its slug, new unless one was
      there already, and an Ingress exactly when it is external. */
  ghost predicate Reachable(c: Cluster, c': Cluster, id: Id, row: Row, externalEnabled: bool) {
    var slug := row.meta.slug;
    && id in c'.services && slug in c'.internal
    && c'.internal[slug] == (if slug in c.internal then c.internal[slug] else id)
    && (if External(row, externalEnabled)
        then id in c'.ingresses && c'.ingresses[id] == row.settings.subdomain
        else id in c'.ingresses <==> id in c.ingresses)
  }

  /** The names of a deployment's own objects and of internal Services never meet. */
  lemma NamesApart(id: string, slug: string)
    ensures "octo-dep-" + id != "octo-int-" + slug
  {
    assert ("octo-dep-" + id)[5] == 'd' && ("octo-int-" + slug)[5] == 'i';
  }

  lemma SameInternal(c: Cluster, c': Cluster, id: Id, slug: Label)
    requires OthersSame(c, c', id, NO_LABEL) && c'.internal == c.internal
    ensures OthersSame(c, c', id, slug)
  {
  }

  function Deleted(c: Cluster, id: Id, fails: Faults): Cluster {
    c.(ingresses := if fails(DeleteObject(Ingress)) then c.ingresses else c.ingresses - {id},
       workloads := if fails(DeleteObject(Deployment)) then c.workloads else c.workloads - {id},
       services := if fails(DeleteObject(Service)) then c.services else c.services - {id},
       configMaps := if fails(DeleteObject(ConfigMap)) then c.configMaps else c.configMaps - {id})
  }

  function RolledBack(c: Cluster, id: Id, slug: Label, fails: Faults): Cluster {
    var left := Deleted(c, id, fails);
    left.(internal := if fails(DeleteInternal) || slug == NO_LABEL then left.internal else left.internal - {slug})
  }

  /** Objects are named only from ids the database has handed out. */
  ghost predicate IdsMinted(db: Db, c: Cluster) {
    forall id: Id :: HasObjects(c, id) ==> id < db.next
  }

  lemma MintedStill(db: Db, db': Db, c: Cluster, c': Cluster, id: Id, slug: Label, fails: Faults)
    requires IdsMinted(db, c) && OthersSame(c, c', id, slug) && db.next <= db'.next && id < db'.next
    ensures IdsMinted(db', c')
    ensures IdsMinted(db', RolledBack(c', id, slug, fails))
  {
    forall other: Id | HasObjects(c', other) ensures other < db'.next {
      if other != id { OtherObjectsSame(c, c', id, slug, other); }
    }
    forall other: Id | HasObjects(RolledBack(c', id, slug, fails), other) ensures HasObjects(c', other) {
    }
  }

  lemma SlugWasFree(db: Db, c: Cluster, row: Row)
    requires ClusterInv(db.rows, c) && Fits(db, row)
    ensures row.meta.slug !in c.internal
  {
  }

  /** Undoing a partial deploy, when it works, leaves nothing: the row's id is new and its slug
      was free, so all that is deleted is what was just created. */
  lemma RollBackRestores(db: Db, c: Cluster, c': Cluster, row: Row, fails: Faults)
    requires Fits(db, row) && DbInv(db) && IdsMinted(db, c) && OthersSame(c, c', db.next, row.meta.slug)
    requires row.meta.slug == NO_LABEL ==> c'.internal == c.internal
    ensures ClusterInv(db.rows, c) && CleanupWorks(fails) ==> RolledBack(c', db.next, row.meta.slug, fails) == c
    ensures db.rows[db.next := row] - {db.next} == db.rows
  {
    if ClusterInv(db.rows, c) && CleanupWorks(fails) {
      SlugWasFree(db, c, row);
      assert !HasObjects(c, db.next);
      assert c.configMaps - {db.next} == c.configMaps && c.workloads - {db.next} == c.workloads;
      assert c.services - {db.next} == c.services && c.ingresses - {db.next} == c.ingresses;
      assert c.internal - {row.meta.slug} == c.internal;
    }
  }

  /** What exists by the time this creating call is made. */
  predicate Made(call: Call, kind: Kind) {
    match call
    case CreateObject(Deployment) => kind == ConfigMap
    case CreateObject(Service) => kind == ConfigMap || kind == Deployment
    case CreateObject(Ingress) => kind != Ingress
    case CreateInternal => kind != Ingress
    case _ => false
  }

  predicate IsCreate(call: Call) {
    call.CreateObject? || call.CreateInternal?
  }

  /** The creating call a deploy stops at: the first that fails, in the order they are made. */
  function FirstFailing(networked: bool, external: bool, fails: Faults): Option<Call> {
    if fails(CreateObject(ConfigMap)) then Some(CreateObject(ConfigMap))
    else if fails(CreateObject(Deployment)) then Some(CreateObject(Deployment))
    else if networked then FirstFailingNetwork(external, fails)
    else None
  }

  function FirstFailingNetwork(external: bool, fails: Faults): Option<Call> {
    if fails(CreateObject(Service)) then Some(CreateObject(Service))
    else if fails(CreateInternal) then Some(CreateInternal)
    else if external && fails(CreateObject(Ingress)) then Some(CreateObject(Ingress))
    else None
  }

  /** A deploy that passed its checks leaves the cluster matching the database: nothing was
      recorded, everything was created, or what undoes it at the call it stopped at worked. */
  predicate Undone(networked: bool, external: bool, fails: Faults) {
    var stop := FirstFailing(networked, external, fails);
    fails(CreateRow) || stop.None? || CleanedUp(networked, stop.value, fails)
  }

  /** What a deploy that stopped at `call` has created, and nothing more. */
  predicate LeftBehind(c: Cluster, c': Cluster, id: Id, slug: Label, call: Call) {
    && (id in c'.configMaps <==> Made(call, ConfigMap)) && (id in c'.workloads <==> Made(call, Deployment))
    && (id in c'.services <==> Made(call, Service)) && id !in c'.ingresses
    && (slug in c'.internal <==> slug in c.internal || call == CreateObject(Ingress))
    && (slug in c'.internal && slug !in c.internal ==> c'.internal[slug] == id)
  }

  /** Whether undoing a deploy that stopped at `call` leaves the cluster matching the database.
      With the row gone, everything that was created must be gone as well. With the row still
      there, its internal Service must be there too. */
  predicate CleanedUp(networked: bool, call: Call, fails: Faults) {
    if fails(DeleteRow) then networked ==> call == CreateObject(Ingress) && fails(DeleteInternal)
    else
      && (call == CreateObject(Ingress) ==> !fails(DeleteInternal))
      && !Littered(call, fails)
  }

  /** Some object created before `call` outlives the cleanup. */
  predicate Littered(call: Call, fails: Faults) {
    exists kind :: Made(call, kind) && fails(DeleteObject(kind))
  }

  lemma LeftObjects(c: Cluster, c': Cluster, id: Id, slug: Label, call: Call, fails: Faults)
    requires LeftBehind(c, c', id, slug, call)
    ensures HasObjects(RolledBack(c', id, slug, fails), id) <==> Littered(call, fails)
  {
    var left := RolledBack(c', id, slug, fails);
    assert id in left.configMaps <==> Made(call, ConfigMap) && fails(DeleteObject(ConfigMap));
    assert id in left.workloads <==> Made(call, Deployment) && fails(DeleteObject(Deployment));
    assert id in left.services <==> Made(call, Service) && fails(DeleteObject(Service));
    assert id !in left.ingresses && !Made(call, Ingress);
  }

  lemma OthersRolledBack(c: Cluster, c': Cluster, id: Id, slug: Label, fails: Faults)
    requires OthersSame(c, c', id, slug) && (slug == NO_LABEL ==> c'.internal == c.internal)
    ensures OthersSame(c, RolledBack(c', id, slug, fails), id, slug)
    ensures slug == NO_LABEL ==> RolledBack(c', id, slug, fails).internal == c.internal
  {
    var left := RolledBack(c', id, slug, fails);
    assert left.configMaps - {id} == c'.configMaps - {id} && left.workloads - {id} == c'.workloads - {id};
    assert left.services - {id} == c'.services - {id} && left.ingresses - {id} == c'.ingresses - {id};
    assert left.internal - {slug} == c'.internal - {slug};
  }

  /** With no row of this id the cluster matches exactly when nothing of it is left. */
  lemma NoRowClusterIff(rows: Rows, c: Cluster, c': Cluster, id: Id, slug: Label)
    requires ClusterInv(rows, c) && id !in rows && slug !in c.internal
    requires OthersSame(c, c', id, slug) && (slug == NO_LABEL ==> c'.internal == c.internal)
    requires slug in c'.internal ==> c'.internal[slug] == id
    ensures ClusterInv(rows, c') <==> !HasObjects(c', id) && slug !in c'.internal
  {
    forall other: Id | other != id ensures HasObjects(c', other) <==> HasObjects(c, other) {
      OtherObjectsSame(c, c', id, slug, other);
    }
    forall l | l != slug ensures l in c'.internal <==> l in c.internal {
      assert l in c'.internal <==> l in c'.internal - {slug};
      assert l in c.internal <==> l in c.internal - {slug};
    }
    forall l | l != slug && l in c.internal ensures c'.internal[l] == c.internal[l] {
      assert (c'.internal - {slug})[l] == (c.internal - {slug})[l];
    }
  }

  /** With the row recorded the cluster matches exactly when the row's internal Service is there. */
  lemma RowClusterIff(rows: Rows, c: Cluster, c': Cluster, id: Id, row: Row)
    requires ClusterInv(rows, c) && id !in rows && OthersSame(c, c', id, row.meta.slug)
    requires forall a :: a in rows && row.meta.slug != NO_LABEL ==> rows[a].meta.slug != row.meta.slug
    requires row.meta.slug == NO_LABEL ==> c'.internal == c.internal
    requires row.meta.slug in c'.internal ==> c'.internal[row.meta.slug] == id
    ensures ClusterInv(rows[id := row], c') <==> row.meta.slug == NO_LABEL || row.meta.slug in c'.internal
  {
    if row.meta.slug == NO_LABEL || row.meta.slug in c'.internal {
      AddRowKeepsCluster(rows, c, c', id, row);
    } else {
      assert rows[id := row][id].meta.slug == row.meta.slug;
    }
  }

  /** A failed deploy, whatever its cleanup calls do, leaves the cluster matching the database
      exactly when they left the right things. */
  lemma RollBackIff(db: Db, c: Cluster, c': Cluster, row: Row, call: Call, fails: Faults)
    requires DbInv(db) && ClusterInv(db.rows, c) && Fits(db, row) && IdsMinted(db, c) && IsCreate(call)
    requires OthersSame(c, c', db.next, row.meta.slug) && LeftBehind(c, c', db.next, row.meta.slug, call)
    requires row.meta.slug == NO_LABEL ==> c'.internal == c.internal && call != CreateObject(Ingress)
    ensures ClusterInv(if fails(DeleteRow) then db.rows[db.next := row] else db.rows,
                       RolledBack(c', db.next, row.meta.slug, fails)) <==>
            CleanedUp(row.meta.slug != NO_LABEL, call, fails)
  {
    var id, slug, left := db.next, row.meta.slug, RolledBack(c', db.next, row.meta.slug, fails);
    SlugWasFree(db, c, row);
    OthersRolledBack(c, c', id, slug, fails);
    LeftObjects(c, c', id, slug, call, fails);
    assert slug in left.internal <==> call == CreateObject(Ingress) && fails(DeleteInternal);
    if fails(DeleteRow) {
      RowClusterIff(db.rows, c, left, id, row);
    } else {
      NoRowClusterIff(db.rows, c, left, id, slug);
    }
  }

  /** Deleting objects leaves no stray behind. */
  lemma FewerObjects(db: Db, c: Cluster, c': Cluster)
    requires c'.configMaps.Keys <= c.configMaps.Keys && c'.workloads.Keys <= c.workloads.Keys
    requires c'.services <= c.services && c'.ingresses.Keys <= c.ingresses.Keys && c'.internal == c.internal
    ensures IdsMinted(db, c) ==> IdsMinted(db, c')
    ensures ClusterInv(db.rows, c) ==> ClusterInv(db.rows, c')
  {
    forall id: Id | HasObjects(c', id) ensures HasObjects(c, id) {
    }
  }

  lemma UndeployKeeps(db: Db, c: Cluster, c': Cluster, id: Id)
    requires DbInv(db) && IdsMinted(db, c) && id in db.rows && !HasObjects(c', id)
    requires OthersSame(c, c', id, db.rows[id].meta.slug)
    requires c'.internal == c.internal || c'.internal == c.internal - {db.rows[id].meta.slug}
    ensures DbInv(db.(rows := db.rows - {id})) && IdsMinted(db.(rows := db.rows - {id}), c')
    ensures SecretsBound(db.rows, c.secrets) ==> SecretsBound(db.rows - {id}, c'.secrets)
    ensures ClusterInv(db.rows, c) ==>
              (ClusterInv(db.rows - {id}, c') <==>
                 db.rows[id].meta.slug == NO_LABEL || db.rows[id].meta.slug !in c'.internal)
    ensures ClusterInv(db.rows, c) && db.rows[id].meta.slug != NO_LABEL ==> db.rows[id].meta.slug in c.internal
  {
    DropRowKeepsDb(db, id);
    forall other: Id | HasObjects(c', other) ensures other < db.next {
      OtherObjectsSame(c, c', id, db.rows[id].meta.slug, other);
    }
    if ClusterInv(db.rows, c) { DropRowClusterIff(db.rows, c, c', id); }
  }

  /** One new row, running as recorded and reachable if it is networked; no other row and none of its objects touched. */
  ghost predicate Deployed(db: Db, c: Cluster, db': Db, c': Cluster, id: Id, externalEnabled: bool) {
    && id == db.next && id in db'.rows && db' == db.(rows := db.rows[id := db'.rows[id]], next := id + 1)
    && Runs(db'.rows, c', id) && OthersSame(c, c', id, db'.rows[id].meta.slug)
    && (db'.rows[id].meta.slug != NO_LABEL ==> Reachable(c, c', id, db'.rows[id], externalEnabled))
  }

  predicate Records(row: Row, snapshot: Id) {
    row.meta.snapshot == snapshot || row.settings.snapshot == snapshot
  }

  predicate TagUsed(snapshots: map<Id, Snapshot>, integration: Id, tag: nat) {
    exists id :: id in snapshots && snapshots[id].integration == integration && snapshots[id].tag == tag
  }

  predicate Referenced(rows: Rows, key: nat) {
    exists id :: id in rows && Binds(rows[id].settings.env, key)
  }

  /** A delete request gets as far as removing the key. */
  predicate Deletes(rows: Rows, key: nat, force: bool, fails: Faults) {
    (force || (!fails(ReferenceLookup) && !Referenced(rows, key))) && !fails(WriteSecret)
  }

  lemma SecretsKeep(db: Db, c: Cluster, secrets: set<nat>, catalog: set<nat>)
    ensures DbInv(db) ==> DbInv(db.(catalog := catalog))
    ensures IdsMinted(db, c) ==> IdsMinted(db.(catalog := catalog), c.(secrets := secrets))
    ensures ClusterInv(db.rows, c) ==> ClusterInv(db.rows, c.(secrets := secrets))
  {
    var c' := c.(secrets := secrets);
    forall id: Id ensures HasObjects(c', id) <==> HasObjects(c, id) {
    }
  }

  predicate Binds(env: Env, key: nat) {
    exists v :: v in env && env[v] == SecretRef(key)
  }

  lemma AddSnapshotKeepsDb(db: Db, snapshot: Snapshot)
    requires DbInv(db) && snapshot.integration in db.integrations
    requires !TagUsed(db.snapshots, snapshot.integration, snapshot.tag)
    ensures DbInv(db.(snapshots := db.snapshots[db.next := snapshot], next := db.next + 1))
  {
  }

  lemma DropSnapshotKeepsDb(db: Db, id: Id)
    requires DbInv(db) && id in db.snapshots
    requires forall row :: row in db.rows && db.rows[row].integration == db.snapshots[id].integration ==>
               !Records(db.rows[row], id)
    ensures DbInv(db.(snapshots := db.snapshots - {id}))
    ensures forall row :: row in db.rows ==> !Records(db.rows[row], id)
  {
    forall row | row in db.rows ensures !Records(db.rows[row], id) {
      assert RowOk(db.snapshots, db.rows[row]);
    }
  }

  datatype Request =
    | DeployIt(integration: Id, want: Wanted)
    | ScaleIt(id: Id, replicas: int)
    | RollOut(id: Id, snapshot: Option<Id>)
    | UndeployIt(id: Id)
    | PutIntegration(at: Option<Id>, definition: Integration)
    | TakeSnapshot(integration: Id, tag: nat)
    | DropSnapshot(id: Id)
    | PutSecret(key: nat)
    | DropSecret(key: nat, force: bool)

  /** Exactly when a request leaves the cluster matching a database it matched before. A deploy
      must be refused, complete, or be undone; an undeploy that gets as far as its last call
      must have no Service left to delete. Nothing else can break the match. */
  ghost predicate CleansUp(lower: char -> char, externalEnabled: bool, db: Db, secrets: set<nat>,
                           request: Request, fails: Faults)
  {
    match request
    case DeployIt(integration, want) =>
      Accepted(lower, externalEnabled, db, secrets, integration, want, fails) ==>
        Undone(AsksNetworked(db, want), want.external, fails)
    case UndeployIt(id) =>
      id in db.rows && db.rows[id].meta.slug != NO_LABEL && UndeployPasses(fails) ==> !fails(DeleteInternal)
    case _ => true
  }

  /** No call of an undeploy fails before its last one. */
  predicate UndeployPasses(fails: Faults) {
    !fails(GetRow) && DeletesWork(fails) && !fails(DeleteRow)
  }

  /** The same judged from the failing calls alone, whatever the database holds by then. */
  predicate Safe(request: Request, fails: Faults) {
    match request
    case DeployIt(_, want) => Undone(true, want.external, fails) && Undone(false, want.external, fails)
    case UndeployIt(_) => UndeployPasses(fails) ==> !fails(DeleteInternal)
    case _ => true
  }

  predicate Forced(request: Request) {
    request.DropSecret? && request.force
  }

  /** Where a deploy stops can be read off the request: the planned row is as networked and as
      external as was asked. */
  lemma PlannedStop(lower: char -> char, externalEnabled: bool, db: Db, integration: Id, want: Wanted, row: Row, fails: Faults)
    requires AsWanted(lower, db, integration, want, row) && RowOk(db.snapshots, row)
    requires want.external ==> externalEnabled
    ensures (row.meta.slug != NO_LABEL) == AsksNetworked(db, want)
    ensures FirstFailing(row.meta.slug != NO_LABEL, External(row, externalEnabled), fails) ==
            FirstFailing(AsksNetworked(db, want), want.external, fails)
    ensures Undone(row.meta.slug != NO_LABEL, External(row, externalEnabled), fails) ==
            Undone(AsksNetworked(db, want), want.external, fails)
  {
  }

  lemma SafeCleansUp(lower: char -> char, externalEnabled: bool, db: Db, secrets: set<nat>, request: Request, fails: Faults)
    ensures Safe(request, fails) ==> CleansUp(lower, externalEnabled, db, secrets, request, fails)
  {
  }

  /** A deploy that could not create everything, undone as far as the cleanup calls work. */
  lemma FailedInstall(db: Db, c: Cluster, c': Cluster, row: Row, call: Call, fails: Faults)
    requires DbInv(db) && Fits(db, row) && IdsMinted(db, c) && IsCreate(call)
    requires OthersSame(c, c', db.next, row.meta.slug)
    requires row.meta.slug !in c.internal ==> LeftBehind(c, c', db.next, row.meta.slug, call)
    requires row.meta.slug == NO_LABEL ==> c'.internal == c.internal && call != CreateObject(Ingress)
    ensures var rows := if fails(DeleteRow) then db.rows[db.next := row] else db.rows;
      var db', left := db.(rows := rows, next := db.next + 1), RolledBack(c', db.next, row.meta.slug, fails);
      && db.rows[db.next := row] - {db.next} == db.rows
      && DbInv(db') && IdsMinted(db', left) && left.secrets == c.secrets
      && (ClusterInv(db.rows, c) ==> (ClusterInv(rows, left) <==> CleanedUp(row.meta.slug != NO_LABEL, call, fails)))
      && (ClusterInv(db.rows, c) && CleanupWorks(fails) ==> left == c)
      && (ClusterInv(db.rows, c) ==> (HasObjects(left, db.next) <==> Littered(call, fails)))
  {
    AddRowKeepsDb(db, row);
    DropRowKeepsDb(db.(rows := db.rows[db.next := row], next := db.next + 1), db.next);
    MintedStill(db, db.(next := db.next + 1), c, c', db.next, row.meta.slug, fails);
    RollBackRestores(db, c, c', row, fails);
    if ClusterInv(db.rows, c) {
      SlugWasFree(db, c, row);
      LeftObjects(c, c', db.next, row.meta.slug, call, fails);
      RollBackIff(db, c, c', row, call, fails);
    }
  }

  lemma DoneInstall(db: Db, c: Cluster, c': Cluster, row: Row)
    requires DbInv(db) && Fits(db, row) && IdsMinted(db, c) && OthersSame(c, c', db.next, row.meta.slug)
    requires row.meta.slug == NO_LABEL ==> c'.internal == c.internal
    requires row.meta.slug != NO_LABEL && row.meta.slug !in c.internal ==>
               row.meta.slug in c'.internal && c'.internal[row.meta.slug] == db.next
    ensures DbInv(db.(rows := db.rows[db.next := row], next := db.next + 1))
    ensures IdsMinted(db.(rows := db.rows[db.next := row], next := db.next + 1), c')
    ensures ClusterInv(db.rows, c) ==> ClusterInv(db.rows[db.next := row], c')
  {
    AddRowKeepsDb(db, row);
    MintedStill(db, db.(next := db.next + 1), c, c', db.next, row.meta.slug, call => false);
    if ClusterInv(db.rows, c) {
      SlugWasFree(db, c, row);
      AddRowKeepsCluster(db.rows, c, c', db.next, row);
    }
  }

  /** The row at another replica count, at least 1. */
  function Scaled(row: Row, replicas: int): Row {
    row.(settings := row.settings.(replicas := if replicas < 1 then 1 else replicas))
  }

  /** Workloads may change in place without breaking anything, and so may replica counts. */
  lemma ScaledKeeps(db: Db, c: Cluster, c': Cluster, id: Id, replicas: int)
    requires DbInv(db) && IdsMinted(db, c) && id in db.rows
    requires c' == c.(workloads := c'.workloads) && c'.workloads.Keys == c.workloads.Keys
    ensures var db' := db.(rows := db.rows[id := Scaled(db.rows[id], replicas)]);
      && DbInv(db') && IdsMinted(db, c') && IdsMinted(db', c')
      && (SecretsBound(db.rows, c.secrets) ==> SecretsBound(db'.rows, c'.secrets))
      && (ClusterInv(db.rows, c) ==> ClusterInv(db.rows, c') && ClusterInv(db'.rows, c'))
  {
    FewerObjects(db, c, c');
    RewriteRowKeeps(db, c', id, Scaled(db.rows[id], replicas));
  }

  /** The same snapshot under the same slug again. */
  function Repeat(row: Row): Wanted {
    Wanted(1, false, "", row.meta.slug.text, map[], Some(row.meta.snapshot))
  }

  /** With no call failing there is no reason to refuse a row's repetition once its slug is free. */
  lemma NothingAgainst(lower: char -> char, externalEnabled: bool, db: Db, secrets: set<nat>,
                       row: Row, fails: Faults, e: Error)
    requires DbInv(db) && RowOk(db.snapshots, row) && row.meta.slug != NO_LABEL
    requires Slug.KeepsSlugChars(lower) && (forall call :: !fails(call))
    requires forall id :: id in db.rows ==> db.rows[id].meta.slug != row.meta.slug
    ensures !Justified(lower, externalEnabled, db, secrets, row.integration, Repeat(row), fails, e)
  {
    Slug.CanonicalIsFixed(lower, row.meta.slug.text);
  }

  /** The snapshot is networked and the row is not, or the other way round. */
  predicate TopologyChanges(db: Db, id: Id, snapshot: Option<Id>) {
    && id in db.rows && snapshot.Some? && snapshot.value in db.snapshots
    && (db.snapshots[snapshot.value].port > 0 <==> db.rows[id].meta.slug == NO_LABEL)
  }

  /** A rollout request that passes every check, given which lookups fail. */
  ghost predicate RolloutAccepted(db: Db, secrets: set<nat>, id: Id, snapshot: Option<Id>, fails: Faults) {
    && !fails(GetRow) && id in db.rows
    && SnapshotAccepted(db, db.rows[id].integration, snapshot, fails)
    && !TopologyChanges(db, id, snapshot)
    && EnvAccepted(db.rows[id].settings.env, secrets, fails)
  }

  /** The definition and the pods are there to be replaced, and no call that does it fails. */
  predicate Replaceable(c: Cluster, id: Id, fails: Faults) {
    && id in c.configMaps && !fails(ReadConfigMap) && !fails(UpdateConfigMap)
    && id in c.workloads && !fails(ReadWorkload) && !fails(UpdateWorkload)
  }

  /** What a rollout does to a row: the new snapshot with its tag in the metadata, the new snapshot
      in the settings if that write works, and nothing else. */
  predicate RolledTo(row: Row, row': Row, snapshot: Id, tag: nat, fails: Faults) {
    && row'.integration == row.integration
    && row'.meta == Metadata(row.meta.name, row.meta.slug, snapshot, tag)
    && row'.settings.replicas == row.settings.replicas && row'.settings.subdomain == row.settings.subdomain
    && row'.settings.env == row.settings.env
    && row'.settings.snapshot == (if fails(UpdateSettings) then row.settings.snapshot else snapshot)
  }

  // ---- The services -------------------------------------------------------------------

  class Orchestrator {
    const lower: char -> char
    const externalEnabled: bool
    var db: Db
    var cluster: Cluster

    constructor (lower: char -> char, externalEnabled: bool)
      ensures this.lower == lower && this.externalEnabled == externalEnabled
      ensures DbInv(db) && SecretsBound(db.rows, cluster.secrets) && ClusterInv(db.rows, cluster)
      ensures IdsMinted(db, cluster)
    {
      this.lower := lower;
      this.externalEnabled := externalEnabled;
      db := Db(map[], map[], map[], {}, 0);
      cluster := Cluster(map[], map[], {}, map[], map[], {});
    }

    /** Reserved names and missing secrets are refused before anything is written. */
    method CheckEnv(env: Env, fails: Faults) returns (problem: Option<Error>)
      ensures problem.None? <==> EnvAccepted(env, cluster.secrets, fails)
      ensures problem.Some? ==>
                match problem.value
                case ReservedEnvVar => Reserved(env)
                case SecretNotFound => !EnvBound(env, cluster.secrets)
                case Failed(call) => call == SecretLookup && fails(call)
                case _ => false
    {
      var todo := env.Keys;
      while todo != {}
        invariant todo <= env.Keys
        invariant forall v :: v in env && v !in todo ==> v.Other?
      {
        var v :| v in todo;
        if !v.Other? {
          return Some(ReservedEnvVar);
        }
        todo := todo - {v};
      }
      todo := env.Keys;
      while todo != {}
        invariant todo <= env.Keys
        invariant forall v :: v in env && v !in todo && env[v].SecretRef? ==>
                    env[v].key in cluster.secrets && !fails(SecretLookup)
      {
        var v :| v in todo;
        if env[v].SecretRef? {
          if fails(SecretLookup) {
            return Some(Failed(SecretLookup));
          }
          if env[v].key !in cluster.secrets {
            return Some(SecretNotFound);
          }
        }
        todo := todo - {v};
      }
      return None;
    }

    /** The snapshot asked for, if it exists and belongs to the integration. */
    method ResolveSnapshot(integration: Id, snapshot: Option<Id>, fails: Faults) returns (r: Result<Id>)
      ensures r.Ok? <==> SnapshotAccepted(db, integration, snapshot, fails)
      ensures r.Ok? ==> snapshot == Some(r.value)
      ensures r.Err? ==>
                match r.error
                case SnapshotRequired => snapshot.None?
                case SnapshotNotFound => snapshot.Some? && snapshot.value !in db.snapshots
                case SnapshotMismatch =>
                  snapshot.Some? && snapshot.value in db.snapshots && db.snapshots[snapshot.value].integration != integration
                case Failed(call) => call == GetSnapshot && fails(call)
                case _ => false
    {
      if snapshot.None? {
        return Err(SnapshotRequired);
      }
      if fails(GetSnapshot) {
        return Err(Failed(GetSnapshot));
      }
      if snapshot.value !in db.snapshots {
        return Err(SnapshotNotFound);
      }
      if db.snapshots[snapshot.value].integration != integration {
        return Err(SnapshotMismatch);
      }
      return Ok(snapshot.value);
    }

    /** A slug no row has, or the reason there is none. */
    method PickSlug(chosen: string, name: string, fails: Faults) returns (r: Result<Label>)
      ensures r.Ok? ==>
                && r.value != NO_LABEL && Slug.Canonical(r.value.text)
                && (chosen != "" ==> r.value.text == Slug.SlugOf(lower, chosen))
                && (forall id :: id in db.rows ==> db.rows[id].meta.slug != r.value)
      ensures Slug.SlugChoice(lower, chosen, name, Claimed(db.rows), SlugFails(fails)) ==
                if r.Ok? then Some(r.value.text) else None
      ensures r.Err? ==>
                match r.error
                case InvalidSlug => chosen != "" && Slug.SlugOf(lower, chosen) == ""
                case SlugTaken => chosen != "" && Slug.SlugOf(lower, chosen) in Claimed(db.rows)
                case SlugExhausted => chosen == "" && |Claimed(db.rows)| >= 999
                case SlugLookupFailed => exists i: nat :: i <= 999 && fails(SlugLookup(i))
                case _ => false
    {
      var lookupFails := SlugFails(fails);
      var a := Slug.ResolveSlug(lower, chosen, name, Claimed(db.rows), lookupFails);
      match a
      case Allocated(slug) =>
        forall id | id in db.rows ensures db.rows[id].meta.slug != Label(slug) {
          if db.rows[id].meta.slug != NO_LABEL {
            assert db.rows[id].meta.slug.text in Claimed(db.rows);
          }
        }
        return Ok(Label(slug));
      case Invalid => return Err(InvalidSlug);
      case Taken => return Err(SlugTaken);
      case Exhausted => return Err(SlugExhausted);
      case LookupFailed =>
        ghost var i: nat :| i <= 999 && lookupFails(i);
        assert fails(SlugLookup(i));
        return Err(SlugLookupFailed);
    }

    /** The subdomain is free, or in use by this very integration. Which row the lookup finds
        does not matter: rows that share a subdomain share an integration. */
    method CheckSubdomain(integration: Id, subdomain: Label, fails: Faults) returns (problem: Option<Error>)
      requires DbInv(db) && subdomain != NO_LABEL
      ensures problem.None? <==>
                && !fails(SubdomainLookup)
                && forall id :: SubdomainUsed(db.rows, id, subdomain) ==> db.rows[id].integration == integration
      ensures problem.Some? ==>
                match problem.value
                case SubdomainTaken =>
                  exists id :: SubdomainUsed(db.rows, id, subdomain) && db.rows[id].integration != integration
                case Failed(call) => call == SubdomainLookup && fails(call)
                case _ => false
    {
      if fails(SubdomainLookup) {
        return Some(Failed(SubdomainLookup));
      }
      if id :| id in db.rows && SubdomainUsed(db.rows, id, subdomain) {
        if db.rows[id].integration != integration {
          return Some(SubdomainTaken);
        }
      }
      return None;
    }

    /** The external subdomain: none for a deployment that is not to be external or has no slug,
        else the one asked for, or the slug itself. */
    method PickSubdomain(integration: Id, want: Wanted, slug: Label, fails: Faults) returns (r: Result<Label>)
      requires DbInv(db) && Slug.KeepsSlugChars(lower) && Slug.Canonical(slug.text)
      ensures r.Ok? <==> HostAccepted(lower, externalEnabled, db, integration, want, slug, fails)
      ensures r.Ok? ==>
                && Slug.Canonical(r.value.text) && (want.external ==> externalEnabled)
                && (r.value != NO_LABEL <==> want.external && slug != NO_LABEL)
                && (r.value != NO_LABEL ==>
                      && r.value == Host(lower, want, slug)
                      && forall id :: SubdomainUsed(db.rows, id, r.value) ==> db.rows[id].integration == integration)
      ensures r.Err? ==>
                && Justified(lower, externalEnabled, db, cluster.secrets, integration, want, fails, r.error)
                && (r.error.Failed? ==> !IsCreate(r.error.call))
    {
      if !want.external {
        return Ok(NO_LABEL);
      }
      if !externalEnabled {
        return Err(ExternalUnavailable);
      }
      if slug == NO_LABEL {
        return Ok(NO_LABEL);
      }
      var text := Slug.Slugify(lower, if want.subdomain == "" then slug.text else want.subdomain);
      Slug.CanonicalIsFixed(lower, slug.text);
      Slug.SlugIsCanonical(lower, want.subdomain);
      if text == "" {
        return Err(InvalidSubdomain);
      }
      var problem := CheckSubdomain(integration, Label(text), fails);
      if problem.Some? {
        return Err(problem.value);
      }
      return Ok(Label(text));
    }

    /** Everything Deploy decides before it writes: the row to record, or why not. */
    method Plan(integration: Id, want: Wanted, fails: Faults) returns (r: Result<Row>)
      requires DbInv(db) && Slug.KeepsSlugChars(lower)
      ensures r.Ok? <==> Accepted(lower, externalEnabled, db, cluster.secrets, integration, want, fails)
      ensures r.Ok? ==>
                && Fits(db, r.value) && AsWanted(lower, db, integration, want, r.value)
                && !Reserved(want.env) && EnvBound(want.env, cluster.secrets) && integration in db.integrations
                && (want.external ==> externalEnabled)
      ensures r.Ok? && r.value.meta.slug != NO_LABEL ==>
                Slug.SlugChoice(lower, want.slug, r.value.meta.name, Claimed(db.rows), SlugFails(fails)) ==
                Some(r.value.meta.slug.text)
      ensures r.Err? ==> Justified(lower, externalEnabled, db, cluster.secrets, integration, want, fails, r.error)
      ensures r.Err? && r.error.Failed? ==> !IsCreate(r.error.call)
    {
      if fails(GetIntegration) {
        return Err(Failed(GetIntegration));
      }
      if integration !in db.integrations {
        return Err(IntegrationNotFound);
      }
      var name := db.integrations[integration].name;
      var snap := ResolveSnapshot(integration, want.snapshot, fails);
      if snap.Err? {
        return Err(snap.error);
      }
      var snapshot := db.snapshots[snap.value];
      var problem := CheckEnv(want.env, fails);
      if problem.Some? {
        return Err(problem.value);
      }
      var slug := NO_LABEL;
      if snapshot.port > 0 {
        var picked := PickSlug(want.slug, name, fails);
        if picked.Err? {
          return Err(picked.error);
        }
        slug := picked.value;
      }
      var host := PickSubdomain(integration, want, slug, fails);
      if host.Err? {
        return Err(host.error);
      }
      var subdomain := host.value;
      var replicas := if want.replicas < 1 then 1 else want.replicas;
      return Ok(Row(integration, Settings(replicas, subdomain, want.env, snap.value),
                    Metadata(name, slug, snap.value, snapshot.tag)));
    }

    // The cluster client.

    /** The internal Service of `slug`, unless one is already there. */
    method EnsureInternalService(slug: Label, id: Id, fails: Faults) returns (failed: Option<Call>)
      modifies `cluster
      ensures failed.Some? <==> slug != NO_LABEL && slug !in old(cluster).internal && fails(CreateInternal)
      ensures failed.Some? ==> failed.value == CreateInternal && cluster == old(cluster)
      ensures failed.None? ==>
                cluster == old(cluster).(internal :=
                  if slug == NO_LABEL || slug in old(cluster).internal then old(cluster).internal
                  else old(cluster).internal[slug := id])
    {
      if slug == NO_LABEL || slug in cluster.internal {
        return None;
      }
      if fails(CreateInternal) {
        return Some(CreateInternal);
      }
      cluster := cluster.(internal := cluster.internal[slug := id]);
      return None;
    }

    /** The definition and the pods. */
    method ApplyWorkload(id: Id, row: Row, fails: Faults) returns (failed: Option<Call>)
      modifies `cluster
      ensures OthersSame(old(cluster), cluster, id, NO_LABEL) && cluster.internal == old(cluster).internal
      ensures cluster.services == old(cluster).services && cluster.ingresses == old(cluster).ingresses
      ensures failed.Some? ==> fails(failed.value) || HasObjects(old(cluster), id)
      ensures failed.Some? ==> failed.value == CreateObject(ConfigMap) || failed.value == CreateObject(Deployment)
      ensures !HasObjects(old(cluster), id) ==> failed == FirstFailing(false, false, fails)
      ensures failed.Some? && !HasObjects(old(cluster), id) ==>
                (id in cluster.configMaps <==> failed.value == CreateObject(Deployment)) && id !in cluster.workloads
      ensures failed.None? ==> Runs(map[id := row], cluster, id)
    {
      if fails(CreateObject(ConfigMap)) || id in cluster.configMaps {
        return Some(CreateObject(ConfigMap));
      }
      cluster := cluster.(configMaps := cluster.configMaps[id := row.meta.snapshot]);
      if fails(CreateObject(Deployment)) || id in cluster.workloads {
        return Some(CreateObject(Deployment));
      }
      cluster := cluster.(workloads := cluster.workloads[id :=
        Workload(row.meta.snapshot, row.settings.replicas, row.settings.env)]);
      return None;
    }

    /** The Services, and the Ingress of an external deployment. */
    method ApplyNetwork(id: Id, row: Row, fails: Faults) returns (failed: Option<Call>)
      requires row.meta.slug != NO_LABEL
      modifies `cluster
      ensures OthersSame(old(cluster), cluster, id, row.meta.slug)
      ensures cluster.configMaps == old(cluster).configMaps && cluster.workloads == old(cluster).workloads
      ensures failed.Some? ==> fails(failed.value) || id in old(cluster).services || id in old(cluster).ingresses
      ensures failed.Some? ==>
                failed.value == CreateObject(Service) || failed.value == CreateInternal || failed.value == CreateObject(Ingress)
      ensures id !in old(cluster).services && id !in old(cluster).ingresses && row.meta.slug !in old(cluster).internal ==>
                failed == FirstFailingNetwork(External(row, externalEnabled), fails)
      ensures failed.Some? && id !in old(cluster).services && id !in old(cluster).ingresses ==>
                && (id in cluster.services <==> failed.value != CreateObject(Service)) && id !in cluster.ingresses
                && cluster.internal ==
                     if failed.value == CreateObject(Ingress) && row.meta.slug !in old(cluster).internal
                     then old(cluster).internal[row.meta.slug := id] else old(cluster).internal
      ensures failed.None? ==> Reachable(old(cluster), cluster, id, row, externalEnabled)
    {
      if fails(CreateObject(Service)) || id in cluster.services {
        return Some(CreateObject(Service));
      }
      cluster := cluster.(services := cluster.services + {id});
      failed := EnsureInternalService(row.meta.slug, id, fails);
      if failed.Some? {
        return;
      }
      if External(row, externalEnabled) {
        if fails(CreateObject(Ingress)) || id in cluster.ingresses {
          return Some(CreateObject(Ingress));
        }
        cluster := cluster.(ingresses := cluster.ingresses[id := row.settings.subdomain]);
      }
    }

    /** Creates the objects of a row, in order, up to the first failure. */
    method Apply(id: Id, row: Row, fails: Faults) returns (failed: Option<Call>)
      modifies `cluster
      ensures OthersSame(old(cluster), cluster, id, row.meta.slug)
      ensures row.meta.slug == NO_LABEL ==> cluster.internal == old(cluster).internal
      ensures failed.Some? ==> IsCreate(failed.value) && (fails(failed.value) || HasObjects(old(cluster), id))
      ensures failed.Some? && !HasObjects(old(cluster), id) && row.meta.slug !in old(cluster).internal ==>
                LeftBehind(old(cluster), cluster, id, row.meta.slug, failed.value)
      ensures failed.Some? && row.meta.slug == NO_LABEL ==> failed.value != CreateObject(Ingress)
      ensures !HasObjects(old(cluster), id) && row.meta.slug !in old(cluster).internal ==>
                failed == FirstFailing(row.meta.slug != NO_LABEL, External(row, externalEnabled), fails)
      ensures failed.None? ==> Runs(map[id := row], cluster, id)
      ensures failed.None? && row.meta.slug != NO_LABEL ==> Reachable(old(cluster), cluster, id, row, externalEnabled)
    {
      ghost var before := cluster;
      failed := ApplyWorkload(id, row, fails);
      if failed.Some? || row.meta.slug == NO_LABEL {
        SameInternal(before, cluster, id, row.meta.slug);
        return;
      }
      ghost var between := cluster;
      failed := ApplyNetwork(id, row, fails);
      SameInternal(before, between, id, row.meta.slug);
    }

    /** Tries all four deletes whatever happens; objects that are missing do not count. */
    method DeleteObjects(id: Id, fails: Faults) returns (ok: bool)
      modifies `cluster
      ensures cluster == Deleted(old(cluster), id, fails)
      ensures ok <==> DeletesWork(fails)
    {
      ok := true;
      if fails(DeleteObject(Ingress)) { ok := false; }
      else { cluster := cluster.(ingresses := cluster.ingresses - {id}); }
      if fails(DeleteObject(Deployment)) { ok := false; }
      else { cluster := cluster.(workloads := cluster.workloads - {id}); }
      if fails(DeleteObject(Service)) { ok := false; }
      else { cluster := cluster.(services := cluster.services - {id}); }
      if fails(DeleteObject(ConfigMap)) { ok := false; }
      else { cluster := cluster.(configMaps := cluster.configMaps - {id}); }
    }

    method DeleteInternalService(slug: Label, fails: Faults)
      modifies `cluster
      ensures cluster == old(cluster).(internal :=
                if fails(DeleteInternal) || slug == NO_LABEL then old(cluster).internal
                else old(cluster).internal - {slug})
    {
      if slug != NO_LABEL && !fails(DeleteInternal) {
        cluster := cluster.(internal := cluster.internal - {slug});
      }
    }

    // The lifecycle.

    /** Undoes a deploy whose objects could not all be created. */
    method RollBack(id: Id, slug: Label, fails: Faults)
      modifies this
      ensures cluster == RolledBack(old(cluster), id, slug, fails)
      ensures db == old(db).(rows := if fails(DeleteRow) then old(db).rows else old(db).rows - {id})
    {
      var _ := DeleteObjects(id, fails);
      DeleteInternalService(slug, fails);
      if !fails(DeleteRow) {
        db := db.(rows := db.rows - {id});
      }
    }

    /** Records a row that fits, then creates its objects, or undoes both. */
    method Install(row: Row, fails: Faults) returns (r: Result<Id>)
      requires DbInv(db) && IdsMinted(db, cluster) && Fits(db, row)
      modifies this
      ensures DbInv(db) && IdsMinted(db, cluster) && cluster.secrets == old(cluster).secrets
      ensures r.Ok? ==> Deployed(old(db), old(cluster), db, cluster, r.value, externalEnabled) && db.rows[r.value] == row
      ensures r.Err? ==> r.error.Failed? && fails(r.error.call)
      ensures old(ClusterInv(db.rows, cluster)) ==>
                var stop := FirstFailing(row.meta.slug != NO_LABEL, External(row, externalEnabled), fails);
                && (r.Ok? <==> !fails(CreateRow) && stop.None?)
                && (r.Err? ==> r.error.call == if fails(CreateRow) then CreateRow else stop.value)
      ensures old(ClusterInv(db.rows, cluster)) ==>
                (ClusterInv(db.rows, cluster) <==>
                   Undone(row.meta.slug != NO_LABEL, External(row, externalEnabled), fails))
      ensures r.Err? ==>
                db.rows == if fails(CreateRow) || !fails(DeleteRow) then old(db).rows else old(db).rows[old(db).next := row]
      ensures r.Err? && old(ClusterInv(db.rows, cluster)) && !fails(CreateRow) ==>
                (HasObjects(cluster, old(db).next) <==> Littered(r.error.call, fails))
      ensures r.Err? && old(ClusterInv(db.rows, cluster)) && CleanupWorks(fails) ==>
                cluster == old(cluster) && db == old(db).(next := db.next)
      ensures old(ClusterInv(db.rows, cluster)) && r.Ok? ==> ClusterInv(db.rows, cluster)
      ensures forall id :: id in db.rows ==> db.rows[id] == row || (id in old(db).rows && db.rows[id] == old(db).rows[id])
    {
      if fails(CreateRow) {
        return Err(Failed(CreateRow));
      }
      var id := db.next;
      ghost var db0, c0 := db, cluster;
      db := db.(rows := db.rows[id := row], next := id + 1);
      var failed := Apply(id, row, fails);
      if failed.Some? {
        FailedInstall(db0, c0, cluster, row, failed.value, fails);
        RollBack(id, row.meta.slug, fails);
        return Err(Failed(failed.value));
      }
      DoneInstall(db0, c0, cluster, row);
      return Ok(id);
    }

    /** A deploy records a row that fits and runs it. When creating its objects fails partway
        everything is undone: if the calls that undo it work, rows and cluster are exactly as
        before. */
    method Deploy(integration: Id, want: Wanted, fails: Faults) returns (r: Result<Id>)
      requires DbInv(db) && IdsMinted(db, cluster) && Slug.KeepsSlugChars(lower)
      modifies this
      ensures DbInv(db) && IdsMinted(db, cluster)
      ensures old(SecretsBound(db.rows, cluster.secrets)) ==> SecretsBound(db.rows, cluster.secrets)
      ensures r.Ok? ==> Deployed(old(db), old(cluster), db, cluster, r.value, externalEnabled)
      ensures old(ClusterInv(db.rows, cluster)) ==>
                (r.Ok? <==>
                   && Accepted(lower, externalEnabled, old(db), old(cluster).secrets, integration, want, fails)
                   && !fails(CreateRow) && FirstFailing(AsksNetworked(old(db), want), want.external, fails).None?)
      ensures old(ClusterInv(db.rows, cluster)) ==>
                (ClusterInv(db.rows, cluster) <==>
                   CleansUp(lower, externalEnabled, old(db), old(cluster).secrets, DeployIt(integration, want), fails))
      ensures r.Ok? ==> AsWanted(lower, old(db), integration, want, db.rows[r.value])
      ensures r.Ok? && db.rows[r.value].meta.slug != NO_LABEL ==>
                Slug.SlugChoice(lower, want.slug, db.rows[r.value].meta.name, Claimed(old(db).rows), SlugFails(fails)) ==
                Some(db.rows[r.value].meta.slug.text)
      ensures r.Err? && (fails(CreateRow) || !fails(DeleteRow)) ==> db.rows == old(db).rows
      ensures old(ClusterInv(db.rows, cluster)) && !fails(CreateRow)
              && Accepted(lower, externalEnabled, old(db), old(cluster).secrets, integration, want, fails) ==>
                var stop := FirstFailing(AsksNetworked(old(db), want), want.external, fails);
                stop.Some? ==>
                  r == Err(Failed(stop.value)) && (HasObjects(cluster, old(db).next) <==> Littered(stop.value, fails))
      ensures r.Err? && old(ClusterInv(db.rows, cluster)) && CleanupWorks(fails) ==>
                cluster == old(cluster) && db == old(db).(next := db.next)
      ensures r.Err? ==> Justified(lower, externalEnabled, old(db), old(cluster).secrets, integration, want, fails, r.error)
    {
      var plan := Plan(integration, want, fails);
      if plan.Err? {
        return Err(plan.error);
      }
      PlannedStop(lower, externalEnabled, db, integration, want, plan.value, fails);
      r := Install(plan.value, fails);
    }

    /** A failed deploy that leaves something behind, for every request that passes its checks: the
        pods cannot be created and the definition cannot be deleted again. */
    method FailedDeployLitters(integration: Id, want: Wanted, fails: Faults) returns (r: Result<Id>)
      requires DbInv(db) && IdsMinted(db, cluster) && ClusterInv(db.rows, cluster) && Slug.KeepsSlugChars(lower)
      requires Accepted(lower, externalEnabled, db, cluster.secrets, integration, want, fails)
      requires !fails(CreateRow) && !fails(DeleteRow)
      requires !fails(CreateObject(ConfigMap)) && fails(CreateObject(Deployment)) && fails(DeleteObject(ConfigMap))
      modifies this
      ensures r == Err(Failed(CreateObject(Deployment)))
      ensures db.rows == old(db).rows && HasObjects(cluster, old(db).next) && !ClusterInv(db.rows, cluster)
    {
      assert Made(CreateObject(Deployment), ConfigMap);
      r := Deploy(integration, want, fails);
    }

    method ScaleWorkload(id: Id, replicas: int, fails: Faults) returns (failed: Option<Call>)
      modifies `cluster
      ensures failed.None? <==> !fails(PatchReplicas) && id in old(cluster).workloads
      ensures failed.Some? ==> cluster == old(cluster)
      ensures failed.None? ==>
                && id in old(cluster).workloads
                && cluster == old(cluster).(workloads :=
                     old(cluster).workloads[id := old(cluster).workloads[id].(replicas := replicas)])
    {
      if fails(PatchReplicas) || id !in cluster.workloads {
        return Some(PatchReplicas);
      }
      cluster := cluster.(workloads := cluster.workloads[id := cluster.workloads[id].(replicas := replicas)]);
      return None;
    }

    /** Changes the replica count of the workload, then of the row. */
    method Scale(id: Id, replicas: int, fails: Faults) returns (r: Result<()>)
      requires DbInv(db) && IdsMinted(db, cluster)
      modifies this
      ensures DbInv(db) && IdsMinted(db, cluster)
      ensures old(SecretsBound(db.rows, cluster.secrets)) ==> SecretsBound(db.rows, cluster.secrets)
      ensures old(ClusterInv(db.rows, cluster)) ==> ClusterInv(db.rows, cluster)
      ensures r.Ok? && old(Runs(db.rows, cluster, id)) ==> Runs(db.rows, cluster, id)
      ensures r.Ok? <==>
                && !fails(GetRow) && id in old(db).rows
                && !fails(PatchReplicas) && id in old(cluster).workloads && !fails(UpdateSettings)
      ensures r.Ok? ==> id in old(db).rows && db == old(db).(rows := old(db).rows[id := Scaled(old(db).rows[id], replicas)])
      ensures r.Ok? ==>
                && db.rows[id].settings.replicas == (if replicas < 1 then 1 else replicas)
                && id in cluster.workloads && cluster.workloads[id].replicas == db.rows[id].settings.replicas
      ensures r.Err? ==> db == old(db)
      ensures OthersSame(old(cluster), cluster, id, NO_LABEL) && cluster.internal == old(cluster).internal
      ensures r == Err(NotFound) <==> !fails(GetRow) && id !in old(db).rows
      ensures r == Err(NotFound) ==> cluster == old(cluster)
    {
      if fails(GetRow) {
        return Err(Failed(GetRow));
      }
      if id !in db.rows {
        return Err(NotFound);
      }
      var scaled := Scaled(db.rows[id], replicas);
      ghost var c0 := cluster;
      var failed := ScaleWorkload(id, scaled.settings.replicas, fails);
      ScaledKeeps(db, c0, cluster, id, replicas);
      if failed.Some? {
        return Err(Failed(failed.value));
      }
      if fails(UpdateSettings) {
        return Err(Failed(UpdateSettings));
      }
      db := db.(rows := db.rows[id := scaled]);
      return Ok(());
    }

    /** Replaces the definition and the pods of a deployment that has both. */
    method ReplaceWorkload(id: Id, workload: Workload, fails: Faults) returns (failed: Option<Call>)
      modifies `cluster
      ensures OthersSame(old(cluster), cluster, id, NO_LABEL) && cluster.internal == old(cluster).internal
      ensures forall other: Id :: HasObjects(cluster, other) <==> HasObjects(old(cluster), other)
      ensures failed.None? <==> Replaceable(old(cluster), id, fails)
      ensures failed.Some? ==> failed.value != UpdateMetadata
      ensures failed.Some? ==> cluster == old(cluster).(configMaps := cluster.configMaps)
      ensures failed.None? ==>
                cluster == old(cluster).(configMaps := old(cluster).configMaps[id := workload.definition],
                                         workloads := old(cluster).workloads[id := workload])
    {
      if fails(ReadConfigMap) || id !in cluster.configMaps {
        return Some(ReadConfigMap);
      }
      if fails(UpdateConfigMap) {
        return Some(UpdateConfigMap);
      }
      cluster := cluster.(configMaps := cluster.configMaps[id := workload.definition]);
      if fails(ReadWorkload) || id !in cluster.workloads {
        return Some(ReadWorkload);
      }
      if fails(UpdateWorkload) {
        return Some(UpdateWorkload);
      }
      cluster := cluster.(workloads := cluster.workloads[id := workload]);
      return None;
    }

    /** What Rollout checks before it changes anything: the row exists, the snapshot is its own
        integration's and as networked as the row, and its bindings still hold. */
    method CheckRollout(id: Id, snapshot: Option<Id>, fails: Faults) returns (r: Result<Id>)
      ensures r.Ok? ==>
                && id in db.rows && snapshot == Some(r.value) && SnapshotOk(db.snapshots, db.rows[id], r.value)
                && !Reserved(db.rows[id].settings.env) && EnvBound(db.rows[id].settings.env, cluster.secrets)
      ensures r.Ok? <==> RolloutAccepted(db, cluster.secrets, id, snapshot, fails)
      ensures r == Err(TopologyChange) ==> TopologyChanges(db, id, snapshot)
      ensures r == Err(NotFound) <==> !fails(GetRow) && id !in db.rows
      ensures r.Err? ==> r.error != Failed(UpdateMetadata)
    {
      if fails(GetRow) {
        return Err(Failed(GetRow));
      }
      if id !in db.rows {
        return Err(NotFound);
      }
      var row := db.rows[id];
      var snap := ResolveSnapshot(row.integration, snapshot, fails);
      if snap.Err? {
        return Err(snap.error);
      }
      if (db.snapshots[snap.value].port > 0) != (row.meta.slug != NO_LABEL) {
        return Err(TopologyChange);
      }
      var problem := CheckEnv(row.settings.env, fails);
      if problem.Some? {
        return Err(problem.value);
      }
      return Ok(snap.value);
    }

    /** Ships another snapshot's definition to a running deployment. The snapshot recorded in
        the metadata and the one in the settings may come apart when the second write fails;
        both still exist and agree with the row's slug. */
    method Rollout(id: Id, snapshot: Option<Id>, fails: Faults) returns (r: Result<()>)
      requires DbInv(db) && IdsMinted(db, cluster)
      modifies this
      ensures DbInv(db) && IdsMinted(db, cluster)
      ensures old(SecretsBound(db.rows, cluster.secrets)) ==> SecretsBound(db.rows, cluster.secrets)
      ensures old(ClusterInv(db.rows, cluster)) ==> ClusterInv(db.rows, cluster)
      ensures r.Ok? <==>
                && RolloutAccepted(old(db), old(cluster).secrets, id, snapshot, fails)
                && Replaceable(old(cluster), id, fails) && !fails(UpdateMetadata)
      ensures r.Ok? ==> Runs(db.rows, cluster, id) && snapshot == Some(db.rows[id].meta.snapshot)
      ensures r.Ok? ==>
                && id in old(db).rows && id in db.rows && snapshot.Some? && snapshot.value in old(db).snapshots
                && db == old(db).(rows := old(db).rows[id := db.rows[id]])
                && RolledTo(old(db).rows[id], db.rows[id], snapshot.value, old(db).snapshots[snapshot.value].tag, fails)
      ensures r.Err? ==> db == old(db)
      ensures r.Err? && r.error != Failed(UpdateMetadata) ==> cluster.workloads == old(cluster).workloads
      ensures cluster == old(cluster).(configMaps := cluster.configMaps, workloads := cluster.workloads)
      ensures OthersSame(old(cluster), cluster, id, NO_LABEL)
      ensures r == Err(TopologyChange) ==> TopologyChanges(db, id, snapshot) && cluster == old(cluster)
    {
      var checked := CheckRollout(id, snapshot, fails);
      if checked.Err? {
        return Err(checked.error);
      }
      var row, next := db.rows[id], checked.value;
      var replicas := if row.settings.replicas < 1 then 1 else row.settings.replicas;
      var failed := ReplaceWorkload(id, Workload(next, replicas, row.settings.env), fails);
      if failed.Some? {
        return Err(Failed(failed.value));
      }
      r := RecordSnapshot(id, next, fails);
    }

    /** Records the snapshot now running, in the metadata and then in the settings. */
    method RecordSnapshot(id: Id, snapshot: Id, fails: Faults) returns (r: Result<()>)
      requires DbInv(db) && IdsMinted(db, cluster) && id in db.rows && SnapshotOk(db.snapshots, db.rows[id], snapshot)
      modifies `db
      ensures DbInv(db) && IdsMinted(db, cluster) && id in db.rows && SameAddress(old(db).rows[id], db.rows[id])
      ensures db == old(db).(rows := old(db).rows[id := db.rows[id]])
      ensures r.Ok? <==> !fails(UpdateMetadata)
      ensures r.Ok? ==> RolledTo(old(db).rows[id], db.rows[id], snapshot, db.snapshots[snapshot].tag, fails)
      ensures r.Err? ==> r == Err(Failed(UpdateMetadata)) && fails(UpdateMetadata) && db == old(db)
      ensures old(SecretsBound(db.rows, cluster.secrets)) ==> SecretsBound(db.rows, cluster.secrets)
      ensures old(ClusterInv(db.rows, cluster)) ==> ClusterInv(db.rows, cluster)
    {
      if fails(UpdateMetadata) {
        return Err(Failed(UpdateMetadata));
      }
      ghost var db0 := db;
      var row := db.rows[id];
      row := row.(meta := row.meta.(snapshot := snapshot, tag := db.snapshots[snapshot].tag));
      db := db.(rows := db.rows[id := row]);
      if !fails(UpdateSettings) {
        row := row.(settings := row.settings.(snapshot := snapshot));
        db := db.(rows := db.rows[id := row]);
      }
      RewriteRowKeeps(db0, cluster, id, row);
      assert db.rows == db0.rows[id := row];
      return Ok(());
    }

    /** Deletes the objects, then the row, then the internal Service. Once the row is gone the
        cluster matches the database exactly when that last delete worked or there was no
        Service to delete; an undeploy that fails earlier leaves it matching. */
    method Undeploy(id: Id, fails: Faults) returns (r: Result<()>)
      requires DbInv(db) && IdsMinted(db, cluster)
      modifies this
      ensures DbInv(db) && IdsMinted(db, cluster) && cluster.secrets == old(cluster).secrets
      ensures old(SecretsBound(db.rows, cluster.secrets)) ==> SecretsBound(db.rows, cluster.secrets)
      ensures r.Ok? ==> id in old(db).rows && db == old(db).(rows := old(db).rows - {id}) && !HasObjects(cluster, id)
      ensures r.Err? ==> db == old(db) && cluster.internal == old(cluster).internal
      ensures id in old(db).rows ==> OthersSame(old(cluster), cluster, id, old(db).rows[id].meta.slug)
      ensures r.Err? && old(ClusterInv(db.rows, cluster)) ==> ClusterInv(db.rows, cluster)
      ensures r.Ok? && old(ClusterInv(db.rows, cluster)) ==>
                (ClusterInv(db.rows, cluster) <==> old(db).rows[id].meta.slug == NO_LABEL || !fails(DeleteInternal))
      ensures r == Err(NotFound) <==> !fails(GetRow) && id !in old(db).rows
      ensures r.Ok? <==> !fails(GetRow) && id in old(db).rows && DeletesWork(fails) && !fails(DeleteRow)
      ensures r.Ok? ==>
                var slug := old(db).rows[id].meta.slug;
                cluster.internal == if slug == NO_LABEL || fails(DeleteInternal) then old(cluster).internal
                                    else old(cluster).internal - {slug}
    {
      if fails(GetRow) {
        return Err(Failed(GetRow));
      }
      if id !in db.rows {
        return Err(NotFound);
      }
      ghost var db0, c0 := db, cluster;
      var slug := db.rows[id].meta.slug;
      var ok := DeleteObjects(id, fails);
      FewerObjects(db, c0, cluster);
      if !ok {
        return Err(Failed(DeleteObject(Deployment)));
      }
      if fails(DeleteRow) {
        return Err(Failed(DeleteRow));
      }
      db := db.(rows := db.rows - {id});
      DeleteInternalService(slug, fails);
      UndeployKeeps(db0, c0, cluster, id);
      return Ok(());
    }

    /** What a failed last call of an undeploy comes to: for every networked deployment, deploying
        the same snapshot under the same slug again succeeds with no call failing, and the
        internal Service of that slug goes on selecting the deployment that is gone. */
    method RedeployMisroutes(id: Id, fails: Faults) returns (again: Id)
      requires DbInv(db) && IdsMinted(db, cluster) && ClusterInv(db.rows, cluster) && Slug.KeepsSlugChars(lower)
      requires id in db.rows && db.rows[id].meta.slug != NO_LABEL
      requires !fails(GetRow) && DeletesWork(fails) && !fails(DeleteRow) && fails(DeleteInternal)
      modifies this
      ensures id !in db.rows && again in db.rows && db.rows[again].meta.slug == old(db).rows[id].meta.slug
      ensures db.rows[again].meta.slug in cluster.internal && cluster.internal[db.rows[again].meta.slug] == id
      ensures !ClusterInv(db.rows, cluster)
    {
      var row := db.rows[id];
      var slug := row.meta.slug;
      assert RowOk(db.snapshots, row);
      var undone := Undeploy(id, fails);
      assert slug in cluster.internal && cluster.internal[slug] == id;
      var works := (call: Call) => false;
      forall e {
        NothingAgainst(lower, externalEnabled, db, cluster.secrets, row, works, e);
      }
      var r := Deploy(row.integration, Repeat(row), works);
      Slug.CanonicalIsFixed(lower, slug.text);
      again := r.value;
    }

    // Integrations, snapshots and secrets.

    method WriteIntegration(id: Option<Id>, integration: Integration, fails: Faults)
      requires DbInv(db) && IdsMinted(db, cluster)
      modifies `db
      ensures DbInv(db) && IdsMinted(db, cluster)
      ensures db == old(db).(integrations := db.integrations, next := db.next)
      ensures if fails(Call.WriteIntegration) || (id.Some? && id.value !in old(db).integrations) then db == old(db)
              else
                var at := if id.None? then old(db).next else id.value;
                db.integrations == old(db).integrations[at := integration]
    {
      if fails(Call.WriteIntegration) {
        return;
      }
      if id.None? {
        db := db.(integrations := db.integrations[db.next := integration], next := db.next + 1);
      } else if id.value in db.integrations {
        db := db.(integrations := db.integrations[id.value := integration]);
      }
    }

    /** Freezes the integration's current definition under a tag it does not have yet. */
    method CreateSnapshot(integration: Id, tag: nat, fails: Faults) returns (r: Result<Id>)
      requires DbInv(db) && IdsMinted(db, cluster)
      modifies `db
      ensures DbInv(db) && IdsMinted(db, cluster) && db.rows == old(db).rows && db.integrations == old(db).integrations
      ensures r.Err? ==> db == old(db)
      ensures r.Ok? ==>
                && integration in db.integrations && r.value !in old(db).snapshots
                && db.snapshots == old(db).snapshots[r.value := Snapshot(integration, tag, db.integrations[integration].port)]
      ensures r == Err(TagExists) ==> TagUsed(old(db).snapshots, integration, tag)
      ensures r.Ok? <==>
                && !fails(GetIntegration) && integration in old(db).integrations && !fails(WriteSnapshot)
                && !TagUsed(old(db).snapshots, integration, tag)
    {
      if fails(GetIntegration) {
        return Err(Failed(GetIntegration));
      }
      if integration !in db.integrations {
        return Err(IntegrationNotFound);
      }
      if fails(WriteSnapshot) {
        return Err(Failed(WriteSnapshot));
      }
      if TagUsed(db.snapshots, integration, tag) {
        return Err(TagExists);
      }
      var id := db.next;
      AddSnapshotKeepsDb(db, Snapshot(integration, tag, db.integrations[integration].port));
      db := db.(snapshots := db.snapshots[id := Snapshot(integration, tag, db.integrations[integration].port)], next := id + 1);
      return Ok(id);
    }

    /** Refused exactly when some row records the snapshot, though only rows of the snapshot's
        own integration are looked at. */
    method DeleteSnapshot(id: Id, fails: Faults) returns (r: Result<()>)
      requires DbInv(db) && IdsMinted(db, cluster)
      modifies `db
      ensures DbInv(db) && IdsMinted(db, cluster) && db.rows == old(db).rows
      ensures r.Err? ==> db == old(db)
      ensures r.Ok? ==> id in old(db).snapshots && db == old(db).(snapshots := old(db).snapshots - {id})
      ensures r == Err(SnapshotInUse) ==> exists row :: row in db.rows && Records(db.rows[row], id)
      ensures r.Ok? <==>
                && !fails(GetSnapshot) && id in old(db).snapshots && !fails(ReferenceLookup) && !fails(WriteSnapshot)
                && forall row :: row in db.rows ==> !Records(db.rows[row], id)
    {
      if fails(GetSnapshot) {
        return Err(Failed(GetSnapshot));
      }
      if id !in db.snapshots {
        return Err(NotFound);
      }
      if fails(ReferenceLookup) {
        return Err(Failed(ReferenceLookup));
      }
      if row :| row in db.rows && db.rows[row].integration == db.snapshots[id].integration && Records(db.rows[row], id) {
        return Err(SnapshotInUse);
      }
      if fails(WriteSnapshot) {
        return Err(Failed(WriteSnapshot));
      }
      DropSnapshotKeepsDb(db, id);
      db := db.(snapshots := db.snapshots - {id});
      return Ok(());
    }

    /** Sets the key in the cluster, then lists its name. When the second call fails the request
        reports an error with the key set; no binding is broken either way. */
    method CreateSecret(key: nat, fails: Faults) returns (r: Result<()>)
      modifies this
      ensures r.Ok? <==> !fails(WriteSecret) && !fails(WriteCatalog)
      ensures cluster == old(cluster).(secrets :=
                if fails(WriteSecret) then old(cluster).secrets else old(cluster).secrets + {key})
      ensures db == old(db).(catalog := if r.Ok? then old(db).catalog + {key} else old(db).catalog)
      ensures old(SecretsBound(db.rows, cluster.secrets)) ==> SecretsBound(db.rows, cluster.secrets)
    {
      if fails(WriteSecret) {
        return Err(Failed(WriteSecret));
      }
      cluster := cluster.(secrets := cluster.secrets + {key});
      if fails(WriteCatalog) {
        return Err(Failed(WriteCatalog));
      }
      db := db.(catalog := db.catalog + {key});
      return Ok(());
    }

    /** Unless forced, a secret some row binds is not deleted. The key goes before its name does,
        so a request can report an error with the key gone. A key that goes leaves every bound
        secret in place exactly when no row binds it. */
    method DeleteSecret(key: nat, force: bool, fails: Faults) returns (r: Result<()>)
      modifies this
      ensures cluster == old(cluster).(secrets :=
                if Deletes(old(db).rows, key, force, fails) then old(cluster).secrets - {key} else old(cluster).secrets)
      ensures db == old(db).(catalog := if r.Ok? then old(db).catalog - {key} else old(db).catalog)
      ensures r.Ok? <==> Deletes(old(db).rows, key, force, fails) && !fails(WriteCatalog) && key in old(db).catalog
      ensures r == Err(SecretInUse) <==> !force && !fails(ReferenceLookup) && Referenced(old(db).rows, key)
      ensures old(SecretsBound(db.rows, cluster.secrets)) ==>
                (SecretsBound(db.rows, cluster.secrets) <==>
                   !(Deletes(old(db).rows, key, force, fails) && Referenced(old(db).rows, key)))
    {
      if !force {
        if fails(ReferenceLookup) {
          return Err(Failed(ReferenceLookup));
        }
        if Referenced(db.rows, key) {
          return Err(SecretInUse);
        }
      }
      if fails(WriteSecret) {
        return Err(Failed(WriteSecret));
      }
      cluster := cluster.(secrets := cluster.secrets - {key});
      if fails(WriteCatalog) {
        return Err(Failed(WriteCatalog));
      }
      if key !in db.catalog {
        return Err(NotFound);
      }
      db := db.(catalog := db.catalog - {key});
      return Ok(());
    }

    /** Every serial run of requests, with any calls failing: the database invariant always
        holds; bound secrets exist unless a delete was forced; and the cluster matches the
        database as long as cleanup calls work. */
    method Serve(requests: seq<Request>, faults: nat -> Faults)
      requires DbInv(db) && IdsMinted(db, cluster) && Slug.KeepsSlugChars(lower)
      requires SecretsBound(db.rows, cluster.secrets) && ClusterInv(db.rows, cluster)
      modifies this
      ensures DbInv(db) && IdsMinted(db, cluster)
      ensures (forall i :: 0 <= i < |requests| ==> !Forced(requests[i])) ==> SecretsBound(db.rows, cluster.secrets)
      ensures (forall i :: 0 <= i < |requests| ==> Safe(requests[i], faults(i))) ==> ClusterInv(db.rows, cluster)
    {
      for n := 0 to |requests|
        invariant DbInv(db) && IdsMinted(db, cluster)
        invariant (forall i :: 0 <= i < n ==> !Forced(requests[i])) ==> SecretsBound(db.rows, cluster.secrets)
        invariant (forall i :: 0 <= i < n ==> Safe(requests[i], faults(i))) ==> ClusterInv(db.rows, cluster)
      {
        SafeCleansUp(lower, externalEnabled, db, cluster.secrets, requests[n], faults(n));
        Handle(requests[n], faults(n));
      }
    }

    method Handle(request: Request, fails: Faults)
      requires DbInv(db) && IdsMinted(db, cluster) && Slug.KeepsSlugChars(lower)
      modifies this
      ensures DbInv(db) && IdsMinted(db, cluster)
      ensures old(SecretsBound(db.rows, cluster.secrets)) && !Forced(request) ==> SecretsBound(db.rows, cluster.secrets)
      ensures old(ClusterInv(db.rows, cluster)) ==>
                (ClusterInv(db.rows, cluster) <==>
                   CleansUp(lower, externalEnabled, old(db), old(cluster).secrets, request, fails))
    {
      match request
      case DeployIt(integration, want) => var _ := Deploy(integration, want, fails);
      case ScaleIt(id, replicas) => var _ := Scale(id, replicas, fails);
      case RollOut(id, snapshot) => var _ := Rollout(id, snapshot, fails);
      case UndeployIt(id) => var _ := Undeploy(id, fails);
      case _ => HandleCatalog(request, fails);
    }

    /** Requests about integrations, snapshots and secrets, which no deployment waits for. */
    method HandleCatalog(request: Request, fails: Faults)
      requires DbInv(db) && IdsMinted(db, cluster)
      requires !request.DeployIt? && !request.ScaleIt? && !request.RollOut? && !request.UndeployIt?
      modifies this
      ensures DbInv(db) && IdsMinted(db, cluster)
      ensures old(SecretsBound(db.rows, cluster.secrets)) && !Forced(request) ==> SecretsBound(db.rows, cluster.secrets)
      ensures old(ClusterInv(db.rows, cluster)) ==> ClusterInv(db.rows, cluster)
    {
      match request
      case PutIntegration(id, integration) => WriteIntegration(id, integration, fails);
      case TakeSnapshot(integration, tag) => var _ := CreateSnapshot(integration, tag, fails);
      case DropSnapshot(id) => var _ := DeleteSnapshot(id, fails);
      case PutSecret(key) =>
        ghost var db0, c0 := db, cluster;
        var _ := CreateSecret(key, fails);
        SecretsKeep(db0, c0, cluster.secrets, db.catalog);
      case DropSecret(key, force) =>
        ghost var db0, c0 := db, cluster;
        var _ := DeleteSecret(key, force, fails);
        SecretsKeep(db0, c0, cluster.secrets, db.catalog);
    }
  }
}
