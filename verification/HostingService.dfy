/**
 The rows, the disk and the cache, and the request handlers that change them. Every handler is proved
 to take exactly its step, so what holds of all histories (module HostingRuns) holds of this code.
 */
module HostingService {
  import opened Wrappers
  import opened FileTree
  import opened StorageKeys
  import opened Extract
  import opened Hosting
  import opened HostingRuns

  /** A directory inside a deployment's home is the home itself or part of its extracted tree. */
  ghost predicate Tidy(cfg: Config, deployments: map<DeploymentId, Deployment>, p: Path) {
    forall a, d {:trigger Home(cfg.keyPrefix, a, d)} | Home(cfg.keyPrefix, a, d) <= p ::
      d in deployments && deployments[d].app == a
      && (p == Home(cfg.keyPrefix, a, d) || TreeIn(Home(cfg.keyPrefix, a, d)) <= p)
  }

  lemma TidyKept(cfg: Config, before: map<DeploymentId, Deployment>, after: map<DeploymentId, Deployment>, p: Path)
    requires Tidy(cfg, before, p)
    requires forall d | d in before :: d in after && after[d].app == before[d].app
    ensures Tidy(cfg, after, p)
  {
  }

  lemma TidyAround(cfg: Config, deployments: map<DeploymentId, Deployment>, d: DeploymentId, p: Path)
    requires d in deployments
    requires var home := Home(cfg.keyPrefix, deployments[d].app, d); p <= home || TreeIn(home) <= p
    ensures Tidy(cfg, deployments, p)
  {
    var home := Home(cfg.keyPrefix, deployments[d].app, d);
    forall a, e | Home(cfg.keyPrefix, a, e) <= p
      ensures e == d && a == deployments[d].app && (p == home || TreeIn(home) <= p)
    {
      if p <= home {
        assert Home(cfg.keyPrefix, a, e) == home[..|home|];
        HomesDisjoint(cfg.keyPrefix, a, e, deployments[d].app, d, home);
      } else {
        BelowHome(home, p);
        HomesDisjoint(cfg.keyPrefix, a, e, deployments[d].app, d, p);
      }
    }
  }

  /** Directories are still in order after work on the home of d. */
  lemma TidyAfter(cfg: Config, before: map<DeploymentId, Deployment>, after: map<DeploymentId, Deployment>,
                  d: DeploymentId, dirs: set<Path>, dirs': set<Path>)
    requires forall e | e in before :: e in after && after[e].app == before[e].app
    requires d in after && forall p | p in dirs :: Tidy(cfg, before, p)
    requires var home := Home(cfg.keyPrefix, after[d].app, d);
             forall p {:trigger p in dirs'} | p in dirs' :: p in dirs || p <= TreeIn(home) || TreeIn(home) <= p
    ensures forall p | p in dirs' :: Tidy(cfg, after, p)
  {
    var home := Home(cfg.keyPrefix, after[d].app, d);
    forall p | p in dirs'
      ensures Tidy(cfg, after, p)
    {
      if p in dirs {
        TidyKept(cfg, before, after, p);
      } else {
        AtHomeOrTree(home, p);
        TidyAround(cfg, after, d, p);
      }
    }
  }

  lemma AtHomeOrTree(home: Path, p: Path)
    requires p <= TreeIn(home) || TreeIn(home) <= p
    ensures p <= home || TreeIn(home) <= p
  {
    assert TreeIn(home)[..|home|] == home;
  }

  /** The files outside the homes of some deployments of an app. */
  function Outside(files: Files, keyPrefix: string, a: AppId, some: set<DeploymentId>): Files {
    map p | p in files && !exists d :: d in some && Home(keyPrefix, a, d) <= p :: files[p]
  }

  lemma OutsideNext(files: Files, keyPrefix: string, a: AppId, some: set<DeploymentId>, d: DeploymentId)
    ensures var now := Outside(files, keyPrefix, a, some);
            Outside(files, keyPrefix, a, some + {d}) == map p | p in now && !(Home(keyPrefix, a, d) <= p) :: now[p]
  {
  }

  predicate InNone(p: Path, keyPrefix: string, a: AppId, some: set<DeploymentId>) {
    forall d | d in some :: !(Home(keyPrefix, a, d) <= p)
  }

  const READ_CHUNK := 1048576

  class Service {
    const cfg: Config
    const disk: Disk
    var now: Time
    var apps: map<AppId, App>
    var deployments: map<DeploymentId, Deployment>
    var cache: map<string, Cached>
    ghost var everApps: set<AppId>
    ghost var trace: seq<Step>
    ghost var states: seq<State>

    ghost function View(): State
      reads this, disk
    {
      State(now, apps, deployments, disk.files, cache, everApps)
    }

    /** The rows, files and cache are what the service reaches by the requests handled so far. */
    ghost predicate Valid()
      reads this, disk
    {
      && disk.WellFormed()
      && Legal(cfg, Run(trace, states)) && states[|trace|] == View()
      && forall p {:trigger p in disk.dirs} | p in disk.dirs :: Tidy(cfg, deployments, p)
    }

    /** Exactly this request has been handled. */
    twostate predicate Took(step: Step)
      requires Enabled(old(View()), step)
      reads this, disk
    {
      && trace == old(trace) + [step] && states == old(states) + [View()]
      && View() == Next(cfg, old(View()), step)
    }

    constructor (cfg: Config)
      ensures Valid() && this.cfg == cfg && trace == [] && fresh(disk)
    {
      this.cfg := cfg;
      disk := new Disk();
      now, apps, deployments, cache, everApps := 0, map[], map[], map[], {};
      trace, states := [], [Init()];
    }

    lemma Sound()
      requires Valid()
      ensures Inv(cfg, View())
    {
      Reachable(cfg, Run(trace, states), |trace|);
    }

    /** _cache_get_app */
    method CacheGet(slug: string) returns (hit: Option<Snapshot>)
      modifies this`cache
      ensures hit == if cfg.cacheTtl > 0 && slug in old(cache) && now < old(cache)[slug].expires
                    then Some(old(cache)[slug].snapshot) else None
      ensures cache == if hit.Some? || cfg.cacheTtl <= 0 then old(cache) else old(cache) - {slug}
    {
      if cfg.cacheTtl <= 0 || slug !in cache {
        return None;
      }
      var entry := cache[slug];
      if entry.expires <= now {
        cache := cache - {slug};
        return None;
      }
      return Some(entry.snapshot);
    }

    method CacheSet(slug: string, snapshot: Snapshot)
      modifies this`cache
      ensures cache == if cfg.cacheTtl <= 0 then old(cache)
                       else old(cache)[slug := Cached(now + cfg.cacheTtl, snapshot)]
    {
      if cfg.cacheTtl > 0 {
        cache := cache[slug := Cached(now + cfg.cacheTtl, snapshot)];
      }
    }

    method Query(slug: string) returns (found: Option<AppId>)
      ensures Finds(View(), slug, found)
    {
      if a :| a in apps && apps[a].slug == slug {
        found := Some(a);
      } else {
        found := None;
      }
    }

    lemma Answer(s: State, slug: string) returns (found: Option<AppId>)
      ensures Finds(s, slug, found)
    {
      if a :| a in s.apps && s.apps[a].slug == slug {
        found := Some(a);
      } else {
        found := None;
      }
    }

    /** _load_app */
    method Lookup(slug: string) returns (app: Option<Snapshot>, ghost found: Option<AppId>)
      modifies this`cache
      ensures Finds(old(View()), slug, found)
      ensures (app, View()) == Hosting.LoadApp(cfg, old(View()), slug, found)
    {
      found := Answer(View(), slug);
      app := CacheGet(slug);
      if app.None? {
        var row := Query(slug);
        found := row;
        if row.Some? {
          var a := row.value;
          var current := apps[a].current;
          var joined := None;
          if current.Some? && current.value in deployments {
            joined := Some(deployments[current.value]);
          }
          var snapshot := Snapshot(a, apps[a], joined);
          CacheSet(slug, snapshot);
          app := Some(snapshot);
          ghost var entry := Cached(now + cfg.cacheTtl, snapshot);
          assert (old(cache) - {slug})[slug := entry] == old(cache)[slug := entry];
        }
      }
    }

    /** Looks an app up by its slug, in the cache or else in the database. */
    method LoadApp(slug: string) returns (app: Option<Snapshot>, ghost found: Option<AppId>)
      requires Valid()
      modifies this
      ensures Valid() && Finds(old(View()), slug, found) && Took(StepLoadApp(slug, found))
      ensures app == Hosting.LoadApp(cfg, old(View()), slug, found).0
    {
      app, found := Lookup(slug);
      LegalExtended(cfg, Run(trace, states), StepLoadApp(slug, found));
      trace, states := trace + [StepLoadApp(slug, found)], states + [View()];
    }

    /** Streams data into memory chunk by chunk and stores it, as storing goes, or stops as soon as it is too long. */
    method SaveArtifact(key: Path, data: Bytes, maxBytes: int, storing: Storing) returns (reply: Reply, size: nat)
      requires disk.WellFormed() && key != [] && key !in disk.dirs && !Clashes(disk.files, key)
      modifies disk
      ensures disk.WellFormed()
      ensures (reply, disk.files) == Hosting.SaveArtifact(old(disk.files), key, data, maxBytes, storing)
      ensures reply == Done ==> size == |data|
      ensures forall p :: p in disk.dirs ==> p in old(disk.dirs) || p < key
    {
      var total: nat, tmp: Bytes := 0, [];
      while total < |data|
        invariant total == |tmp| <= |data| && tmp == data[..total]
        invariant total == 0 || total <= maxBytes
      {
        var chunk := data[total..Min(total + READ_CHUNK, |data|)];
        total := total + |chunk|;
        if total > maxBytes {
          return TooLarge, 0;
        }
        tmp := tmp + chunk;
      }
      assert tmp == data;
      if disk.Exists(key) {
        disk.FileIsALeaf(key);
        var deleted := disk.Delete(key);
        assert deleted;
      }
      var left := LeftOf(tmp, storing);
      if left.Some? {
        var saved := disk.Save(key, left.value);
        assert saved;
      }
      reply, size := if storing.Complete? then Done else StorageFailed, total;
      assert disk.files == if left.Some? then old(disk.files)[key := left.value] else old(disk.files) - {key};
    }

    /** Stores an artifact for a deployment that is not live. */
    method Upload(d: DeploymentId, contentLength: Option<int>, data: Bytes, storing: Storing) returns (reply: Reply)
      requires Valid() && Enabled(View(), StepUpload(d, contentLength, data, storing))
      modifies this, disk
      ensures Valid() && Took(StepUpload(d, contentLength, data, storing))
      ensures reply == Hosting.Upload(cfg, old(View()), d, contentLength, data, storing).0
    {
      LegalExtended(cfg, Run(trace, states), StepUpload(d, contentLength, data, storing));
      var row := deployments[d];
      if !(row.status == Draft || row.status == Uploading || row.status == Failed) {
        reply := WrongStatus;
      } else if contentLength.Some? && contentLength.value > cfg.maxUpload {
        reply := TooLarge;
      } else {
        var key := ArtifactIn(Home(cfg.keyPrefix, row.app, d));
        ArtifactFree(d);
        var size: nat;
        reply, size := SaveArtifact(key, data, cfg.maxUpload, storing);
        if reply == Done {
          deployments := deployments[d := row.(status := Uploading, artifactSize := size)];
        }
        forall p | p in disk.dirs
          ensures Tidy(cfg, deployments, p)
        {
          if p in old(disk.dirs) {
            TidyKept(cfg, old(deployments), deployments, p);
          } else {
            BelowArtifact(Home(cfg.keyPrefix, row.app, d), p);
            TidyAround(cfg, deployments, d, p);
          }
        }
      }
      trace, states := trace + [StepUpload(d, contentLength, data, storing)], states + [View()];
    }

    lemma BelowArtifact(home: Path, p: Path)
      requires p < ArtifactIn(home)
      ensures p <= home
    {
      assert ArtifactIn(home)[..|home|] == home;
    }

    /** The place of an artifact is free, or holds the artifact uploaded before. */
    lemma ArtifactFree(d: DeploymentId)
      requires Valid() && d in deployments
      ensures var key := ArtifactIn(Home(cfg.keyPrefix, deployments[d].app, d));
              key != [] && key !in disk.dirs && !Clashes(disk.files, key)
    {
      var home := Home(cfg.keyPrefix, deployments[d].app, d);
      Sound();
      assert HomeOf(cfg, View(), d) == home;
      UploadFits(cfg, View(), d);
      ArtifactBeside(home);
      assert ArtifactIn(home) in disk.dirs ==> Tidy(cfg, deployments, ArtifactIn(home));
    }

    /** Makes d the one active deployment of its app and drops the app from the cache. */
    method ActivateRows(d: DeploymentId, finalizedAt: Option<Time>, renew: bool)
      requires d in deployments && deployments[d].app in apps
      modifies this`deployments, this`apps, this`cache
      ensures View() == Activate(cfg, old(View()), d, finalizedAt, renew)
    {
      var a, row := deployments[d].app, deployments[d];
      SupersedeOthers(a, d);
      deployments := deployments[d := row.(status := Active, finalizedAt := finalizedAt)];
      var app := apps[a].(current := Some(d));
      if renew && app.createdBy.Some? {
        app := app.(expiresAt := Some(PreviewExpiresAt(cfg, now)));
      }
      apps := apps[a := app];
      cache := cache - {app.slug};
      assert deployments == Activate(cfg, old(View()), d, finalizedAt, renew).deployments;
    }

    /** Supersedes the active deployments of app a except d. */
    method SupersedeOthers(a: AppId, d: DeploymentId)
      modifies this`deployments
      ensures deployments.Keys == old(deployments).Keys
      ensures forall e | e in deployments ::
                deployments[e] == if old(deployments)[e].app == a && old(deployments)[e].status == Active && e != d
                                  then old(deployments)[e].(status := Superseded) else old(deployments)[e]
    {
      deployments := map e | e in deployments ::
        var row := deployments[e];
        if row.app == a && row.status == Active && e != d then row.(status := Superseded) else row;
    }

    lemma TreeTidy(d: DeploymentId)
      requires Valid() && d in deployments
      ensures OnlyTree(disk, Home(cfg.keyPrefix, deployments[d].app, d))
    {
      var home := Home(cfg.keyPrefix, deployments[d].app, d);
      forall p | p in disk.dirs && home <= p
        ensures p == home || TreeIn(home) <= p
      {
        assert Tidy(cfg, deployments, p);
      }
    }

    /** What the outcome of the extraction does to the rows; s is the state before it. */
    method RecordOutcome(d: DeploymentId, outcome: Outcome, ghost s: State) returns (reply: Reply)
      requires d in deployments && deployments[d].app in apps && View() == s.(files := disk.files)
      modifies this`deployments, this`apps, this`cache
      ensures (reply, View()) == AfterExtraction(cfg, s, d, outcome, disk.files)
    {
      match outcome {
        case ArtifactMissing => reply := NoArtifact;
        case StorageRefused => reply := StorageFailed;
        case ArchiveBroken => reply := ArchiveUnreadable;
        case LimitExceeded =>
          deployments := deployments[d := deployments[d].(status := Failed)];
          reply := BadArtifact;
        case Extracted(_) =>
          ActivateRows(d, Some(now), true);
          reply := Done;
      }
    }

    /** _activate_deployment, and the failure mark: the checks, the extraction and what it does to the rows. */
    method ExtractAndRecord(d: DeploymentId) returns (reply: Reply)
      requires Valid() && d in deployments && deployments[d].app in apps
      modifies this`deployments, this`apps, this`cache, disk
      ensures (reply, View()) == Hosting.Finalize(cfg, old(View()), d)
      ensures disk.WellFormed() && forall p {:trigger p in disk.dirs} | p in disk.dirs :: Tidy(cfg, deployments, p)
    {
      var row := deployments[d];
      if !(row.status == Uploading || row.status == Ready || row.status == Draft) {
        return WrongStatus;
      }
      if row.artifactSize <= 0 {
        return NoArtifact;
      }
      var home := Home(cfg.keyPrefix, row.app, d);
      TreeTidy(d);
      ghost var s := View();
      var outcome := ExtractDeploymentArtifact(disk, home, cfg.parse, cfg.limits);
      reply := RecordOutcome(d, outcome, s);
      HomesKept(cfg, s, d, outcome, disk.files);
      TidyAfter(cfg, old(deployments), deployments, d, old(disk.dirs), disk.dirs);
    }

    lemma HomesKept(cfg: Config, s: State, d: DeploymentId, outcome: Outcome, files: Files)
      requires d in s.deployments && s.deployments[d].app in s.apps
      ensures SameHomes(s, AfterExtraction(cfg, s, d, outcome, files).1)
    {
    }

    /** Extracts and activates a deployment, or marks it failed. */
    method Finalize(d: DeploymentId) returns (reply: Reply)
      requires Valid() && d in deployments && deployments[d].app in apps
      modifies this, disk
      ensures Valid() && Took(StepFinalize(d))
      ensures reply == Hosting.Finalize(cfg, old(View()), d).0
    {
      LegalExtended(cfg, Run(trace, states), StepFinalize(d));
      reply := ExtractAndRecord(d);
      trace, states := trace + [StepFinalize(d)], states + [View()];
    }

    /** Makes an earlier deployment current again. */
    method Rollback(d: DeploymentId) returns (reply: Reply)
      requires Valid() && d in deployments && deployments[d].app in apps
      modifies this
      ensures Valid() && Took(StepRollback(d))
      ensures reply == Hosting.Rollback(cfg, old(View()), d).0
    {
      LegalExtended(cfg, Run(trace, states), StepRollback(d));
      var row := deployments[d];
      if !(row.status == Ready || row.status == Active || row.status == Superseded) {
        reply := WrongStatus;
      } else if row.artifactSize <= 0 {
        reply := NoArtifact;
      } else {
        ActivateRows(d, if row.finalizedAt.Some? then row.finalizedAt else Some(now), false);
        reply := Done;
        forall p | p in disk.dirs
          ensures Tidy(cfg, deployments, p)
        {
          TidyKept(cfg, old(deployments), deployments, p);
        }
      }
      trace, states := trace + [StepRollback(d)], states + [View()];
    }

    lemma HomeIsNoFile(d: DeploymentId)
      requires Valid() && d in deployments
      ensures HomeOf(cfg, View(), d) !in disk.files
    {
      Sound();
      if HomeOf(cfg, View(), d) in disk.files {
        var e := HousedBelow(cfg, View(), HomeOf(cfg, View(), d));
        HomesEqualLength(cfg, View(), d, e);
      }
    }

    /** Deletes everything stored for an app's deployments. */
    method DeleteAppArtifacts(a: AppId)
      requires disk.WellFormed()
      requires forall d | d in deployments && deployments[d].app == a :: Home(cfg.keyPrefix, a, d) !in disk.files
      modifies disk
      ensures disk.WellFormed()
      ensures disk.files == WithoutApp(cfg, old(View()), a)
      ensures forall p {:trigger p in disk.dirs} :: p in disk.dirs ==>
                p in old(disk.dirs) && InNone(p, cfg.keyPrefix, a, set d | d in deployments && deployments[d].app == a)
    {
      var rest := set d | d in deployments && deployments[d].app == a;
      ghost var mine, gone := rest, {};
      while rest != {}
        invariant rest <= mine && gone == mine - rest && disk.WellFormed()
        invariant disk.files == Outside(old(disk.files), cfg.keyPrefix, a, gone)
        invariant forall p {:trigger p in disk.dirs} :: p in disk.dirs ==>
                    p in old(disk.dirs) && InNone(p, cfg.keyPrefix, a, gone)
        decreases rest
      {
        var d :| d in rest;
        OutsideNext(old(disk.files), cfg.keyPrefix, a, gone, d);
        DeleteHome(Home(cfg.keyPrefix, a, d));
        rest, gone := rest - {d}, gone + {d};
      }
      assert gone == mine;
    }

    /** Deletes an app's rows and everything stored for it. */
    method DeleteApp(a: AppId)
      requires Valid() && a in apps
      modifies this, disk
      ensures Valid() && Took(StepDeleteApp(a))
    {
      LegalExtended(cfg, Run(trace, states), StepDeleteApp(a));
      forall d | d in deployments
        ensures HomeOf(cfg, View(), d) !in disk.files
      {
        HomeIsNoFile(d);
      }
      DeleteAppArtifacts(a);
      apps := apps - {a};
      deployments := deployments - (set d | d in deployments && deployments[d].app == a);
      forall p | p in disk.dirs
        ensures Tidy(cfg, deployments, p)
      {
        assert Tidy(cfg, old(deployments), p);
      }
      trace, states := trace + [StepDeleteApp(a)], states + [View()];
    }

    /** Deletes the extracted tree, the artifact and then whatever else is in the home. */
    method DeleteHome(home: Path)
      requires disk.WellFormed() && home != [] && home !in disk.files
      modifies disk
      ensures disk.WellFormed()
      ensures disk.files == map p | p in old(disk.files) && !(home <= p) :: old(disk.files)[p]
      ensures forall p {:trigger p in disk.dirs} :: p in disk.dirs ==> p in old(disk.dirs) && !(home <= p)
    {
      forall p | p in disk.files || p in disk.dirs
        ensures p == ArtifactIn(home) || TreeIn(home) <= p ==> home <= p
      {
        if p == ArtifactIn(home) || TreeIn(home) <= p {
          BelowHome(home, p);
        }
      }
      disk.DeleteTree(TreeIn(home));
      var key := ArtifactIn(home);
      if disk.Exists(key) {
        var ok := disk.Delete(key);
      }
      disk.DeleteTree(home);
    }

    /** Extends the lifetime of a preview that is still live. */
    method RenewExpiry(a: AppId) returns (reply: Reply)
      requires Valid() && a in apps
      modifies this
      ensures Valid() && Took(StepRenewExpiry(a))
      ensures reply == Hosting.RenewExpiry(cfg, old(View()), a).0
    {
      LegalExtended(cfg, Run(trace, states), StepRenewExpiry(a));
      var app := apps[a];
      if app.createdBy.None? && app.expiresAt.None? {
        reply := NotPreview;
      } else if Expired(app, now) {
        reply := PreviewExpired;
      } else {
        apps := apps[a := app.(expiresAt := Some(PreviewExpiresAt(cfg, now)))];
        reply := Done;
      }
      trace, states := trace + [StepRenewExpiry(a)], states + [View()];
    }

    /** Registers a deployment for an app, within the quota. */
    method CreateDeployment(a: AppId, d: DeploymentId, access: bool, versions: bool) returns (reply: Reply)
      requires Valid() && a in apps && d !in deployments && PlainId(d)
      modifies this
      ensures Valid() && Took(StepCreateDeployment(a, d, access, versions))
      ensures reply == Hosting.CreateDeployment(cfg, old(View()), a, d, access, versions).0
    {
      LegalExtended(cfg, Run(trace, states), StepCreateDeployment(a, d, access, versions));
      var count := |set e | e in deployments && deployments[e].app == a|;
      if !access {
        reply := AccessDenied;
      } else if count >= cfg.maxDeployments {
        reply := QuotaExceeded;
      } else if !versions {
        reply := BadVersion;
      } else {
        deployments := deployments[d := Deployment(a, Draft, 0, None)];
        reply := Done;
        forall p | p in disk.dirs
          ensures Tidy(cfg, deployments, p)
        {
          TidyKept(cfg, old(deployments), deployments, p);
        }
      }
      trace, states := trace + [StepCreateDeployment(a, d, access, versions)], states + [View()];
    }

    /** Registers an app under a fresh id and a slug nobody has. */
    method CreateApp(a: AppId, row: App)
      requires Valid() && Enabled(View(), StepCreateApp(a, row))
      modifies this
      ensures Valid() && Took(StepCreateApp(a, row))
    {
      LegalExtended(cfg, Run(trace, states), StepCreateApp(a, row));
      apps, everApps := apps[a := row.(current := None)], everApps + {a};
      trace, states := trace + [StepCreateApp(a, row)], states + [View()];
    }

    method Tick(to: Time)
      requires Valid() && now <= to
      modifies this
      ensures Valid() && Took(StepTick(to))
    {
      LegalExtended(cfg, Run(trace, states), StepTick(to));
      now := to;
      trace, states := trace + [StepTick(to)], states + [View()];
    }
  }
}
