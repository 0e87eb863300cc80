/**
 What each request answers and what it leaves, in every reachable state: told by statuses, sizes and dates, and by
 what the database holds afterwards.
 */
module HostingReplies {
  import opened Wrappers
  import opened FileTree
  import opened StorageKeys
  import opened Extract
  import opened Hosting
  import opened HostingRuns

  /** In t, d is the current deployment of its app and live; whatever was live for that app has been superseded, and
      nothing else is different but d's date, the app's expiry, the files and the cache. */
  ghost predicate MadeCurrent(s: State, t: State, d: DeploymentId) {
    && d in s.deployments && s.deployments[d].app in s.apps
    && t.deployments.Keys == s.deployments.Keys && t.apps.Keys == s.apps.Keys
    && var a := s.deployments[d].app;
       && t.apps[a].current == Some(d) && t.deployments[d].status == Active
       && t.deployments[d].artifactSize == s.deployments[d].artifactSize && t.deployments[d].app == a
       && t.apps[a].slug == s.apps[a].slug && t.apps[a].createdBy == s.apps[a].createdBy
       && (forall e {:trigger t.deployments[e]} | e in s.deployments && e != d ::
             if s.deployments[e].app == a && s.deployments[e].status == Active
             then t.deployments[e] == s.deployments[e].(status := Superseded)
             else t.deployments[e] == s.deployments[e])
       && (forall b {:trigger t.apps[b]} | b in s.apps && b != a :: t.apps[b] == s.apps[b])
       && t.now == s.now && t.everApps == s.everApps
  }

  lemma ActivateMakesCurrent(cfg: Config, s: State, d: DeploymentId, finalizedAt: Option<Time>, renew: bool)
    requires d in s.deployments && s.deployments[d].app in s.apps
    ensures MadeCurrent(s, Activate(cfg, s, d, finalizedAt, renew), d)
  {
  }

  /** A rollback is refused exactly for what never went live, and for a live deployment without a recorded size; in
      all other cases it makes the deployment current, with the date it had and the app's expiry as it was. */
  lemma RollbackReplies(cfg: Config, r: Run, k: nat, d: DeploymentId)
    requires Legal(cfg, r) && k <= |r.steps| && Enabled(r.states[k], StepRollback(d))
    ensures var s := r.states[k];
            var (reply, t) := Rollback(cfg, s, d);
            && (reply == WrongStatus <==> s.deployments[d].status in {Draft, Uploading, Failed})
            && (reply == NoArtifact <==>
                s.deployments[d].status in {Active, Superseded} && s.deployments[d].artifactSize == 0)
            && (reply == Done <==>
                s.deployments[d].status in {Active, Superseded} && s.deployments[d].artifactSize > 0)
            && (reply != Done ==> t == s)
            && (reply == Done ==>
                  && MadeCurrent(s, t, d) && t.files == s.files
                  && t.apps[s.deployments[d].app].expiresAt == s.apps[s.deployments[d].app].expiresAt
                  && t.deployments[d].finalizedAt == s.deployments[d].finalizedAt)
  {
    Reachable(cfg, r, k);
    var s := r.states[k];
    assert DeploymentOk(s, d);
    if Closed(s, d) {
      LiveHasDate(cfg, r, k, d);
      if s.deployments[d].artifactSize > 0 {
        ActivateMakesCurrent(cfg, s, d, s.deployments[d].finalizedAt, false);
      }
    }
  }

  /** Right after d has become current, any lookup of the slug finds the app and resolves to d. */
  lemma LookupAfterActivation(cfg: Config, s: State, d: DeploymentId, finalizedAt: Option<Time>, renew: bool,
                              found: Option<AppId>)
    requires RowsInv(s) && d in s.deployments && s.deployments[d].app in s.apps
    requires Finds(Activate(cfg, s, d, finalizedAt, renew), s.apps[s.deployments[d].app].slug, found)
    ensures var t, a := Activate(cfg, s, d, finalizedAt, renew), s.deployments[d].app;
            var loaded := LoadApp(cfg, t, s.apps[a].slug, found).0;
            loaded.Some? && loaded.value.id == a && Resolve(loaded.value) == Some(d)
  {
    var t, a := Activate(cfg, s, d, finalizedAt, renew), s.deployments[d].app;
    assert t.apps[a].slug == s.apps[a].slug;
    assert found.Some? && t.apps[found.value].slug == s.apps[found.value].slug;
  }

  lemma LookupAfterRollback(cfg: Config, r: Run, k: nat, d: DeploymentId, found: Option<AppId>)
    requires Legal(cfg, r) && k <= |r.steps| && Enabled(r.states[k], StepRollback(d))
    requires var s := r.states[k];
             Closed(s, d) && s.deployments[d].artifactSize > 0
             && Finds(Rollback(cfg, s, d).1, s.apps[s.deployments[d].app].slug, found)
    ensures var s := r.states[k];
            var loaded := LoadApp(cfg, Rollback(cfg, s, d).1, s.apps[s.deployments[d].app].slug, found).0;
            loaded.Some? && loaded.value.id == s.deployments[d].app && Resolve(loaded.value) == Some(d)
  {
    Reachable(cfg, r, k);
    var s := r.states[k];
    LookupAfterActivation(cfg, s, d, if s.deployments[d].finalizedAt.Some? then s.deployments[d].finalizedAt
                                     else Some(s.now), false, found);
  }

  /** A finalize is refused exactly for what is live or failed; with a recorded size the extraction decides. */
  lemma FinalizeReplies(cfg: Config, r: Run, k: nat, d: DeploymentId)
    requires Legal(cfg, r) && k <= |r.steps| && Enabled(r.states[k], StepFinalize(d))
    ensures var s := r.states[k];
            var (reply, t) := Finalize(cfg, s, d);
            var row, outcome := s.deployments[d], ExtractArtifact(s.files, HomeOf(cfg, s, d), cfg.parse, cfg.limits).0;
            var may := row.status in {Draft, Uploading};
            && (reply == WrongStatus <==> row.status in {Active, Superseded, Failed})
            && (reply == NoArtifact <==> may && (row.artifactSize == 0 || outcome.ArtifactMissing?))
            && (reply == BadArtifact <==> may && row.artifactSize > 0 && outcome.LimitExceeded?)
            && (reply == Done <==> may && row.artifactSize > 0 && outcome.Extracted?)
  {
    Reachable(cfg, r, k);
    assert DeploymentOk(r.states[k], d);
  }

  /** A successful finalize makes the deployment current, dates it, and gives a preview its days from now. */
  lemma FinalizeDone(cfg: Config, s: State, d: DeploymentId)
    requires Enabled(s, StepFinalize(d)) && Finalize(cfg, s, d).0 == Done
    ensures var t, a := Finalize(cfg, s, d).1, s.deployments[d].app;
            && MadeCurrent(s, t, d) && t.deployments[d].finalizedAt == Some(s.now)
            && t.apps[a].expiresAt == if s.apps[a].createdBy.Some? then Some(DaysFrom(cfg, s.now))
                                      else s.apps[a].expiresAt
  {
    var outcome, files := FinalizeIs(cfg, s, d);
    ActivateMakesCurrent(cfg, s.(files := files), d, Some(s.now), true);
  }

  /** The configured number of days from a moment on: seven when it is zero, and at least one. */
  function DaysFrom(cfg: Config, now: Time): Time {
    var days := if cfg.previewDays == 0 then 7 else if cfg.previewDays < 1 then 1 else cfg.previewDays;
    now + days * 24 * 60 * 60 * 1000000
  }

  /** An upload is refused exactly for what is live, and for what is announced or turns out to be too long; in all
      other cases it is stored, as storing goes, and recorded when all of it is stored. */
  lemma UploadReplies(cfg: Config, r: Run, k: nat, d: DeploymentId, length: Option<int>, data: Bytes, storing: Storing)
    requires Legal(cfg, r) && k <= |r.steps| && Enabled(r.states[k], StepUpload(d, length, data, storing))
    ensures var s := r.states[k];
            var (reply, t) := Upload(cfg, s, d, length, data, storing);
            var row, key := s.deployments[d], ArtifactIn(HomeOf(cfg, s, d));
            var may := row.status in {Draft, Uploading, Failed};
            var tooLong := (length.Some? && length.value > cfg.maxUpload) || (data != [] && |data| > cfg.maxUpload);
            && (reply == WrongStatus <==> row.status in {Active, Superseded})
            && (reply == TooLarge <==> may && tooLong)
            && (reply == Done <==> may && !tooLong && storing.Complete?)
            && (reply == StorageFailed <==> may && !tooLong && storing.BrokenOff?)
            && (reply == WrongStatus || reply == TooLarge ==> t == s)
            && (reply == StorageFailed ==>
                  t == s.(files := if storing.left.Some? then s.files[key := storing.left.value] else s.files - {key}))
            && (reply == Done ==>
                  t == s.(files := s.files[key := data],
                          deployments := s.deployments[d := row.(status := Uploading, artifactSize := |data|)]))
  {
    Reachable(cfg, r, k);
    assert DeploymentOk(r.states[k], d);
    UploadFits(cfg, r.states[k], d);
  }

  /** A new deployment is refused without access, then over the quota, then for its version, and is otherwise a draft
      that nobody serves. */
  lemma CreationReplies(cfg: Config, s: State, a: AppId, d: DeploymentId, access: bool, versions: bool)
    requires Enabled(s, StepCreateDeployment(a, d, access, versions))
    ensures var (reply, t) := CreateDeployment(cfg, s, a, d, access, versions);
            var others := set e | e in s.deployments && s.deployments[e].app == a;
            && (reply == AccessDenied <==> !access)
            && (reply == QuotaExceeded <==> access && |others| >= cfg.maxDeployments)
            && (reply == BadVersion <==> access && |others| < cfg.maxDeployments && !versions)
            && (reply == Done <==> access && |others| < cfg.maxDeployments && versions)
            && (reply != Done ==> t == s)
            && (reply == Done ==>
                  t == s.(deployments := s.deployments[d := Deployment(a, Draft, 0, None)]))
  {
    assert DeploymentsOf(s, a) == set e | e in s.deployments && s.deployments[e].app == a;
  }

  /** So no app ever has more deployments than the quota. */
  lemma {:induction false} QuotaHolds(cfg: Config, r: Run, k: nat, a: AppId)
    requires Legal(cfg, r) && k <= |r.steps|
    ensures |DeploymentsOf(r.states[k], a)| <= Max(0, cfg.maxDeployments)
  {
    if k == 0 {
      assert DeploymentsOf(r.states[0], a) == {};
    } else {
      QuotaHolds(cfg, r, k - 1, a);
      assert StepOk(cfg, r, k - 1);
      QuotaStep(cfg, r.states[k - 1], r.steps[k - 1], a);
    }
  }

  lemma QuotaStep(cfg: Config, s: State, step: Step, a: AppId)
    requires Enabled(s, step) && |DeploymentsOf(s, a)| <= Max(0, cfg.maxDeployments)
    ensures |DeploymentsOf(Next(cfg, s, step), a)| <= Max(0, cfg.maxDeployments)
  {
    var t := Next(cfg, s, step);
    if step.StepCreateDeployment? {
      QuotaCreation(cfg, s, step.app, step.deployment, step.access, step.versions, a);
    } else if step.StepDeleteApp? {
      Smaller(DeploymentsOf(t, a), DeploymentsOf(s, a));
    } else {
      HomesBack(cfg, s, step);
      assert DeploymentsOf(t, a) == DeploymentsOf(s, a);
    }
  }

  lemma QuotaCreation(cfg: Config, s: State, b: AppId, d: DeploymentId, access: bool, versions: bool, a: AppId)
    requires Enabled(s, StepCreateDeployment(b, d, access, versions))
    requires |DeploymentsOf(s, a)| <= Max(0, cfg.maxDeployments)
    ensures |DeploymentsOf(CreateDeployment(cfg, s, b, d, access, versions).1, a)| <= Max(0, cfg.maxDeployments)
  {
    CreationReplies(cfg, s, b, d, access, versions);
    OneMoreDeployment(s, b, d, a);
    assert DeploymentsOf(s, b) == set e | e in s.deployments && s.deployments[e].app == b;
  }

  lemma OneMoreDeployment(s: State, b: AppId, d: DeploymentId, a: AppId)
    requires d !in s.deployments
    ensures |DeploymentsOf(s.(deployments := s.deployments[d := Deployment(b, Draft, 0, None)]), a)|
            == |DeploymentsOf(s, a)| + (if b == a then 1 else 0)
  {
    var t := s.(deployments := s.deployments[d := Deployment(b, Draft, 0, None)]);
    assert DeploymentsOf(t, a) == DeploymentsOf(s, a) + (if b == a then {d} else {});
  }

  lemma Smaller(a: set<DeploymentId>, b: set<DeploymentId>)
    requires a <= b
    ensures |a| <= |b|
  {
    assert b == a + (b - a);
  }

  /** All other requests leave the deployments there are, with their apps. */
  lemma HomesBack(cfg: Config, s: State, step: Step)
    requires Enabled(s, step) && !step.StepCreateDeployment? && !step.StepDeleteApp?
    ensures var t := Next(cfg, s, step);
            t.deployments.Keys == s.deployments.Keys
            && forall d | d in s.deployments :: t.deployments[d].app == s.deployments[d].app
  {
    HomesStay(cfg, s, step);
    NoNewRows(cfg, s, step);
  }

  lemma NoNewRows(cfg: Config, s: State, step: Step)
    requires Enabled(s, step) && !step.StepCreateDeployment?
    ensures Next(cfg, s, step).deployments.Keys <= s.deployments.Keys
  {
    if step.StepFinalize? {
      var outcome, files := FinalizeIs(cfg, s, step.deployment);
    }
  }

  /** Deleting an app deletes its row, its deployments and exactly what is stored for them. */
  lemma DeletionLeaves(cfg: Config, r: Run, k: nat, a: AppId, p: Path)
    requires Legal(cfg, r) && k <= |r.steps| && Enabled(r.states[k], StepDeleteApp(a))
    ensures var s, t := r.states[k], DeleteApp(cfg, r.states[k], a);
            && t.apps.Keys == s.apps.Keys - {a}
            && (forall b {:trigger t.apps[b]} | b in t.apps :: t.apps[b] == s.apps[b])
            && (forall d {:trigger d in t.deployments} ::
                  d in t.deployments <==> d in s.deployments && s.deployments[d].app != a)
            && (forall d {:trigger t.deployments[d]} | d in t.deployments :: t.deployments[d] == s.deployments[d])
            && (p in t.files <==> p in s.files && exists d :: d in t.deployments && HomeOf(cfg, t, d) <= p)
            && (p in t.files ==> t.files[p] == s.files[p])
  {
    Reachable(cfg, r, k);
    var s, t := r.states[k], DeleteApp(cfg, r.states[k], a);
    if p in s.files {
      var e := HousedBelow(cfg, s, p);
      if p in t.files {
        assert e in t.deployments && HomeOf(cfg, t, e) <= p;
      }
      if d :| d in t.deployments && HomeOf(cfg, t, d) <= p {
        OneHomeOnly(cfg, s, a, d, p);
      }
    }
  }

  lemma OneHomeOnly(cfg: Config, s: State, a: AppId, d: DeploymentId, p: Path)
    requires RowsInv(s) && d in s.deployments && s.deployments[d].app != a && HomeOf(cfg, s, d) <= p
    ensures !exists e :: e in s.deployments && s.deployments[e].app == a && HomeOf(cfg, s, e) <= p
  {
    forall e | e in s.deployments && s.deployments[e].app == a
      ensures !(HomeOf(cfg, s, e) <= p)
    {
      HomesApart(cfg, s, e, d, p);
    }
  }

  /** A renewal is refused for what never expires and for what has expired, and gives all others their days again. */
  lemma RenewalReplies(cfg: Config, s: State, a: AppId)
    requires Enabled(s, StepRenewExpiry(a))
    ensures var (reply, t) := RenewExpiry(cfg, s, a);
            var app := s.apps[a];
            && (reply == NotPreview <==> app.createdBy == None && app.expiresAt == None)
            && (reply == PreviewExpired <==> app.expiresAt.Some? && app.expiresAt.value <= s.now)
            && (reply == Done <==>
                (app.createdBy.Some? || app.expiresAt.Some?) && (app.expiresAt.Some? ==> s.now < app.expiresAt.value))
            && (reply != Done ==> t == s)
            && (reply == Done ==> t == s.(apps := s.apps[a := app.(expiresAt := Some(DaysFrom(cfg, s.now)))]))
  {
  }
}
