/**
 The life of hosted apps and their deployments: the rows, the stored files and the in-process
 cache in front of the app lookup, as a state that one request at a time changes.
 */
module Hosting {
  import opened Wrappers
  import opened FileTree
  import opened StorageKeys
  import opened Extract

  type Time = int
  type AppId = string
  type DeploymentId = string

  datatype Status = Draft | Uploading | Ready | Active | Superseded | Failed

  datatype App = App(slug: string, createdBy: Option<nat>, expiresAt: Option<Time>, current: Option<DeploymentId>)

  datatype Deployment = Deployment(app: AppId, status: Status, artifactSize: nat, finalizedAt: Option<Time>)

  /** An app row as a lookup returns it, joined with its current deployment. */
  datatype Snapshot = Snapshot(id: AppId, app: App, deployment: Option<Deployment>)

  datatype Cached = Cached(expires: Time, snapshot: Snapshot)

  datatype Config = Config(keyPrefix: string, maxUpload: int, limits: Limits, previewDays: int, cacheTtl: Time,
                           maxDeployments: int, parse: Bytes -> Parsed)

  datatype State = State(now: Time, apps: map<AppId, App>, deployments: map<DeploymentId, Deployment>, files: Files,
                         cache: map<string, Cached>, everApps: set<AppId>)

  datatype Reply = Done | AccessDenied | QuotaExceeded | BadVersion | WrongStatus | TooLarge | NoArtifact | BadArtifact
                 | ArchiveUnreadable | StorageFailed | NotPreview | PreviewExpired

  const DAY := 86400000000

  function PreviewExpiresAt(cfg: Config, now: Time): Time {
    now + DAY * (if cfg.previewDays == 0 then 7 else Max(cfg.previewDays, 1))
  }

  predicate Expired(app: App, now: Time) {
    app.expiresAt.Some? && app.expiresAt.value <= now
  }

  function HomeOf(cfg: Config, s: State, d: DeploymentId): Path
    requires d in s.deployments
  {
    Home(cfg.keyPrefix, s.deployments[d].app, d)
  }

  function DeploymentsOf(s: State, a: AppId): set<DeploymentId> {
    set d | d in s.deployments && s.deployments[d].app == a
  }

  // ---------- the operations ----------

  function CreateApp(s: State, id: AppId, app: App): State {
    s.(apps := s.apps[id := app.(current := None)], everApps := s.everApps + {id})
  }

  function CreateDeployment(cfg: Config, s: State, a: AppId, id: DeploymentId, access: bool, versions: bool)
    : (Reply, State)
  {
    if !access then (AccessDenied, s)
    else if |DeploymentsOf(s, a)| >= cfg.maxDeployments then (QuotaExceeded, s)
    else if !versions then (BadVersion, s)
    else (Done, s.(deployments := s.deployments[id := Deployment(a, Draft, 0, None)]))
  }

  /**
   How the storage takes an artifact: as a whole, or it breaks off after the old artifact has been deleted, with the
   first part of the new one stored or nothing.
   */
  datatype Storing = Complete | BrokenOff(left: Option<Bytes>)

  /** What storing data leaves at its place. */
  function LeftOf(data: Bytes, storing: Storing): Option<Bytes> {
    if storing.Complete? then Some(data) else storing.left
  }

  /** Storing the artifact: refused once it is longer than allowed, and then nothing is stored. */
  function SaveArtifact(files: Files, key: Path, data: Bytes, maxBytes: int, storing: Storing): (Reply, Files) {
    if data != [] && |data| > maxBytes then (TooLarge, files)
    else if Clashes(files, key) then (StorageFailed, files)
    else
      (if storing.Complete? then Done else StorageFailed,
       match LeftOf(data, storing)
       case Some(left) => files[key := left]
       case None => files - {key})
  }

  function Upload(cfg: Config, s: State, d: DeploymentId, contentLength: Option<int>, data: Bytes, storing: Storing)
    : (Reply, State)
    requires d in s.deployments
  {
    var row := s.deployments[d];
    if !(row.status == Draft || row.status == Uploading || row.status == Failed) then (WrongStatus, s)
    else if contentLength.Some? && contentLength.value > cfg.maxUpload then (TooLarge, s)
    else
      var (reply, files) := SaveArtifact(s.files, ArtifactIn(HomeOf(cfg, s, d)), data, cfg.maxUpload, storing);
      if reply != Done then (reply, s.(files := files))
      else
        (Done, s.(files := files, deployments := s.deployments[d := row.(status := Uploading, artifactSize := |data|)]))
  }

  /** Makes d the one active deployment of its app, and drops the app from the cache. */
  function Activate(cfg: Config, s: State, d: DeploymentId, finalizedAt: Option<Time>, renew: bool): State
    requires d in s.deployments && s.deployments[d].app in s.apps
  {
    var a := s.deployments[d].app;
    var app := s.apps[a];
    var expiresAt := if renew && app.createdBy.Some? then Some(PreviewExpiresAt(cfg, s.now)) else app.expiresAt;
    s.(deployments := map e | e in s.deployments ::
                        if e == d then s.deployments[e].(status := Active, finalizedAt := finalizedAt)
                        else if s.deployments[e].app == a && s.deployments[e].status == Active then
                          s.deployments[e].(status := Superseded)
                        else s.deployments[e],
       apps := s.apps[a := app.(current := Some(d), expiresAt := expiresAt)],
       cache := s.cache - {app.slug})
  }

  /** What becomes of the rows, given what became of the extraction. */
  function AfterExtraction(cfg: Config, s: State, d: DeploymentId, outcome: Outcome, files: Files): (Reply, State)
    requires d in s.deployments && s.deployments[d].app in s.apps
  {
    var after := s.(files := files);
    match outcome
    case ArtifactMissing => (NoArtifact, after)
    case StorageRefused => (StorageFailed, after)
    case ArchiveBroken => (ArchiveUnreadable, after)
    case LimitExceeded =>
      (BadArtifact, after.(deployments := s.deployments[d := s.deployments[d].(status := Failed)]))
    case Extracted(_) => (Done, Activate(cfg, after, d, Some(s.now), true))
  }

  function Finalize(cfg: Config, s: State, d: DeploymentId): (Reply, State)
    requires d in s.deployments && s.deployments[d].app in s.apps
  {
    var row := s.deployments[d];
    if !(row.status == Uploading || row.status == Ready || row.status == Draft) then (WrongStatus, s)
    else if row.artifactSize <= 0 then (NoArtifact, s)
    else
      var (outcome, files) := ExtractArtifact(s.files, HomeOf(cfg, s, d), cfg.parse, cfg.limits);
      AfterExtraction(cfg, s, d, outcome, files)
  }

  function Rollback(cfg: Config, s: State, d: DeploymentId): (Reply, State)
    requires d in s.deployments && s.deployments[d].app in s.apps
  {
    var row := s.deployments[d];
    if !(row.status == Ready || row.status == Active || row.status == Superseded) then (WrongStatus, s)
    else if row.artifactSize <= 0 then (NoArtifact, s)
    else
      (Done, Activate(cfg, s, d, if row.finalizedAt.Some? then row.finalizedAt else Some(s.now), false))
  }

  /** The files left when everything in the directories of an app's deployments is deleted. */
  function WithoutApp(cfg: Config, s: State, a: AppId): Files {
    map p | p in s.files && !exists d :: d in s.deployments && s.deployments[d].app == a && HomeOf(cfg, s, d) <= p
      :: s.files[p]
  }

  function DeleteApp(cfg: Config, s: State, a: AppId): State {
    s.(files := WithoutApp(cfg, s, a), apps := s.apps - {a}, deployments := s.deployments - DeploymentsOf(s, a))
  }

  function RenewExpiry(cfg: Config, s: State, a: AppId): (Reply, State)
    requires a in s.apps
  {
    var app := s.apps[a];
    if app.createdBy.None? && app.expiresAt.None? then (NotPreview, s)
    else if Expired(app, s.now) then (PreviewExpired, s)
    else (Done, s.(apps := s.apps[a := app.(expiresAt := Some(PreviewExpiresAt(cfg, s.now)))]))
  }

  // ---------- looking an app up ----------

  /** What the database holds for an app now. */
  function Stored(s: State, a: AppId): Snapshot
    requires a in s.apps
  {
    var current := s.apps[a].current;
    Snapshot(a, s.apps[a],
             if current.Some? && current.value in s.deployments then Some(s.deployments[current.value]) else None)
  }

  /** Database and cache lookup of a slug; found is what the database query answers. */
  function LoadApp(cfg: Config, s: State, slug: string, found: Option<AppId>): (Option<Snapshot>, State)
    requires found.Some? ==> found.value in s.apps
  {
    if cfg.cacheTtl > 0 && slug in s.cache && s.now < s.cache[slug].expires then
      (Some(s.cache[slug].snapshot), s)
    else
      var bare := if cfg.cacheTtl > 0 then s.(cache := s.cache - {slug}) else s;
      if found.None? then (None, bare)
      else
        var snapshot := Stored(s, found.value);
        (Some(snapshot),
         if cfg.cacheTtl > 0 then s.(cache := s.cache[slug := Cached(s.now + cfg.cacheTtl, snapshot)]) else s)
  }

  /** The deployment a looked-up app serves. */
  function Resolve(snapshot: Snapshot): Option<DeploymentId> {
    if snapshot.app.current.Some? && snapshot.deployment.Some?
       && (var status := snapshot.deployment.value.status; status == Active || status == Ready || status == Superseded)
    then snapshot.app.current else None
  }

  /** The database query by slug. */
  predicate Finds(s: State, slug: string, found: Option<AppId>) {
    match found
    case Some(a) => a in s.apps && s.apps[a].slug == slug
    case None => forall a | a in s.apps :: s.apps[a].slug != slug
  }

  // ---------- steps ----------

  datatype Step =
    | StepCreateApp(app: AppId, row: App)
    | StepCreateDeployment(app: AppId, deployment: DeploymentId, access: bool, versions: bool)
    | StepUpload(deployment: DeploymentId, contentLength: Option<int>, data: Bytes, storing: Storing)
    | StepFinalize(deployment: DeploymentId)
    | StepRollback(deployment: DeploymentId)
    | StepDeleteApp(app: AppId)
    | StepRenewExpiry(app: AppId)
    | StepLoadApp(slug: string, found: Option<AppId>)
    | StepTick(to: Time)

  /** Ids are fresh, slugs are unique, requests name rows that exist and the clock does not go back. */
  predicate Enabled(s: State, step: Step) {
    match step
    case StepCreateApp(a, row) => a !in s.everApps && PlainId(a) && Finds(s, row.slug, None)
    case StepCreateDeployment(a, d, _, _) => a in s.apps && d !in s.deployments && PlainId(d)
    case StepUpload(d, _, data, storing) =>
      d in s.deployments && (storing.BrokenOff? && storing.left.Some? ==> storing.left.value <= data)
    case StepFinalize(d) => d in s.deployments && s.deployments[d].app in s.apps
    case StepRollback(d) => d in s.deployments && s.deployments[d].app in s.apps
    case StepDeleteApp(a) => a in s.apps
    case StepRenewExpiry(a) => a in s.apps
    case StepLoadApp(slug, found) => Finds(s, slug, found)
    case StepTick(to) => s.now <= to
  }

  function Next(cfg: Config, s: State, step: Step): State
    requires Enabled(s, step)
  {
    match step
    case StepCreateApp(a, row) => CreateApp(s, a, row)
    case StepCreateDeployment(a, d, access, versions) => CreateDeployment(cfg, s, a, d, access, versions).1
    case StepUpload(d, contentLength, data, storing) => Upload(cfg, s, d, contentLength, data, storing).1
    case StepFinalize(d) => Finalize(cfg, s, d).1
    case StepRollback(d) => Rollback(cfg, s, d).1
    case StepDeleteApp(a) => DeleteApp(cfg, s, a)
    case StepRenewExpiry(a) => RenewExpiry(cfg, s, a).1
    case StepLoadApp(slug, found) => LoadApp(cfg, s, slug, found).1
    case StepTick(to) => s.(now := to)
  }

  function Init(): State {
    State(0, map[], map[], map[], map[], {})
  }

  datatype Run = Run(steps: seq<Step>, states: seq<State>)

  ghost predicate StepOk(cfg: Config, r: Run, k: nat)
    requires |r.states| == |r.steps| + 1 && k < |r.steps|
  {
    Enabled(r.states[k], r.steps[k]) && r.states[k + 1] == Next(cfg, r.states[k], r.steps[k])
  }

  /** The service starts empty and handles one request after the other. */
  ghost predicate Legal(cfg: Config, r: Run) {
    && |r.states| == |r.steps| + 1
    && r.states[0] == Init()
    && forall k {:trigger StepOk(cfg, r, k)} | 0 <= k < |r.steps| :: StepOk(cfg, r, k)
  }

  lemma LegalExtended(cfg: Config, r: Run, step: Step)
    requires Legal(cfg, r) && Enabled(r.states[|r.steps|], step)
    ensures var t := Next(cfg, r.states[|r.steps|], step);
            Legal(cfg, Run(r.steps + [step], r.states + [t]))
  {
    var longer := Run(r.steps + [step], r.states + [Next(cfg, r.states[|r.steps|], step)]);
    forall k | 0 <= k < |longer.steps|
      ensures StepOk(cfg, longer, k)
    {
      if k < |r.steps| {
        assert StepOk(cfg, r, k);
      }
    }
  }

  // ---------- the invariant, part by part ----------

  /** An app's current deployment is one of its own and active. */
  predicate AppOk(s: State, a: AppId)
    requires a in s.apps
  {
    && a in s.everApps && PlainId(a)
    && match s.apps[a].current
       case None => true
       case Some(d) => d in s.deployments && s.deployments[d].app == a && s.deployments[d].status == Active
  }

  /** A deployment belongs to an app, is never left ready, and is the app's current one when it is active. */
  predicate DeploymentOk(s: State, d: DeploymentId)
    requires d in s.deployments
  {
    var row := s.deployments[d];
    && PlainId(d) && row.app in s.apps && row.status != Ready
    && (row.status == Active ==> s.apps[row.app].current == Some(d))
  }

  predicate SlugsUnique(s: State) {
    forall a, b | a in s.apps && b in s.apps && s.apps[a].slug == s.apps[b].slug :: a == b
  }

  /** Every file is the artifact of a deployment or belongs to its extracted tree. */
  ghost predicate InHome(cfg: Config, s: State, p: Path) {
    exists d :: d in s.deployments && (p == ArtifactIn(HomeOf(cfg, s, d)) || TreeIn(HomeOf(cfg, s, d)) <= p)
  }

  ghost predicate Housed(cfg: Config, s: State) {
    Layered(s.files) && forall p {:trigger p in s.files} | p in s.files :: InHome(cfg, s, p)
  }

  /** A cached app that still exists names the deployment the database names, with the same row. */
  predicate Agrees(s: State, slug: string, snapshot: Snapshot) {
    && snapshot.app.slug == slug && snapshot.id in s.everApps
    && (snapshot.id in s.apps ==>
          && s.apps[snapshot.id].slug == slug
          && s.apps[snapshot.id].current == snapshot.app.current
          && Stored(s, snapshot.id).deployment == snapshot.deployment)
  }

  predicate CacheAgrees(s: State) {
    forall slug {:trigger Agrees(s, slug, s.cache[slug].snapshot)} | slug in s.cache ::
      Agrees(s, slug, s.cache[slug].snapshot)
  }

  /** Exactly one deployment of an app with a current deployment is active, and none of any other app. */
  ghost predicate RowsInv(s: State) {
    && (forall a {:trigger AppOk(s, a)} | a in s.apps :: AppOk(s, a))
    && (forall d {:trigger DeploymentOk(s, d)} | d in s.deployments :: DeploymentOk(s, d))
    && SlugsUnique(s)
  }

  ghost predicate Inv(cfg: Config, s: State) {
    RowsInv(s) && Housed(cfg, s) && CacheAgrees(s)
  }
}
