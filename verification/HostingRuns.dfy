/** What every step of the hosting service keeps, and what holds over whole histories. */
module HostingRuns {
  import opened Wrappers
  import opened FileTree
  import opened Paths
  import opened StorageKeys
  import opened Extract
  import opened Hosting

  // ---------- rows ----------

  lemma CreateAppKeepsRows(s: State, a: AppId, row: App)
    requires RowsInv(s) && Enabled(s, StepCreateApp(a, row))
    ensures RowsInv(CreateApp(s, a, row))
  {
    var t := CreateApp(s, a, row);
    forall b | b in t.apps
      ensures AppOk(t, b)
    {
      assert b != a ==> AppOk(s, b);
    }
    forall d | d in t.deployments
      ensures DeploymentOk(t, d)
    {
      assert DeploymentOk(s, d) && AppOk(s, s.deployments[d].app);
    }
  }

  /** A new or changed deployment that is not active and was not. */
  lemma DraftKeepsRows(s: State, d: DeploymentId, row: Deployment)
    requires RowsInv(s) && PlainId(d) && row.app in s.apps && row.status != Active && row.status != Ready
    requires d in s.deployments ==> s.deployments[d].status != Active && s.deployments[d].app == row.app
    ensures RowsInv(s.(deployments := s.deployments[d := row]))
  {
    var t := s.(deployments := s.deployments[d := row]);
    forall a | a in t.apps
      ensures AppOk(t, a)
    {
      assert AppOk(s, a);
    }
    forall e | e in t.deployments
      ensures DeploymentOk(t, e)
    {
      assert e != d ==> DeploymentOk(s, e);
    }
  }

  lemma ActivateKeepsRows(cfg: Config, s: State, d: DeploymentId, finalizedAt: Option<Time>, renew: bool)
    requires RowsInv(s) && d in s.deployments && s.deployments[d].app in s.apps
    ensures RowsInv(Activate(cfg, s, d, finalizedAt, renew))
  {
    var t := Activate(cfg, s, d, finalizedAt, renew);
    assert DeploymentOk(s, d);
    forall a | a in t.apps
      ensures AppOk(t, a)
    {
      assert AppOk(s, a);
    }
    forall e | e in t.deployments
      ensures DeploymentOk(t, e)
    {
      assert DeploymentOk(s, e);
    }
  }

  lemma DeleteKeepsRows(cfg: Config, s: State, a: AppId)
    requires RowsInv(s)
    ensures RowsInv(DeleteApp(cfg, s, a))
  {
    var t := DeleteApp(cfg, s, a);
    forall b | b in t.apps
      ensures AppOk(t, b)
    {
      assert AppOk(s, b);
    }
    forall d | d in t.deployments
      ensures DeploymentOk(t, d)
    {
      assert DeploymentOk(s, d);
    }
  }

  lemma RenewKeepsRows(cfg: Config, s: State, a: AppId)
    requires RowsInv(s) && a in s.apps
    ensures RowsInv(RenewExpiry(cfg, s, a).1)
  {
    var t := RenewExpiry(cfg, s, a).1;
    forall b | b in t.apps
      ensures AppOk(t, b)
    {
      assert AppOk(s, b);
    }
    forall d | d in t.deployments
      ensures DeploymentOk(t, d)
    {
      assert DeploymentOk(s, d);
    }
  }

  lemma SameRowsButFiles(s: State, t: State)
    requires RowsInv(s) && t == s.(files := t.files, cache := t.cache, now := t.now)
    ensures RowsInv(t)
  {
    assert forall a | a in t.apps :: AppOk(s, a) ==> AppOk(t, a);
    assert forall d | d in t.deployments :: DeploymentOk(s, d) ==> DeploymentOk(t, d);
  }

  lemma UploadKeepsRows(cfg: Config, s: State, d: DeploymentId, contentLength: Option<int>, data: Bytes,
                        storing: Storing)
    requires RowsInv(s) && d in s.deployments
    ensures RowsInv(Upload(cfg, s, d, contentLength, data, storing).1)
  {
    var t := Upload(cfg, s, d, contentLength, data, storing).1;
    assert DeploymentOk(s, d);
    if t.deployments != s.deployments {
      DraftKeepsRows(s, d, t.deployments[d]);
      SameRowsButFiles(s.(deployments := t.deployments), t);
    } else {
      SameRowsButFiles(s, t);
    }
  }

  /** A finalize is refused, and then changes nothing, or it extracts. */
  lemma FinalizeIs(cfg: Config, s: State, d: DeploymentId) returns (outcome: Outcome, files: Files)
    requires Enabled(s, StepFinalize(d))
    ensures (outcome, files) == ExtractArtifact(s.files, HomeOf(cfg, s, d), cfg.parse, cfg.limits)
    ensures (Finalize(cfg, s, d).1 == s && Finalize(cfg, s, d).0 != Done && Finalize(cfg, s, d).0 != BadArtifact)
            || (Finalize(cfg, s, d) == AfterExtraction(cfg, s, d, outcome, files)
                && s.deployments[d].status != Active && s.deployments[d].status != Superseded)
  {
    var result := ExtractArtifact(s.files, HomeOf(cfg, s, d), cfg.parse, cfg.limits);
    outcome, files := result.0, result.1;
  }

  lemma ExtractionKeepsRows(cfg: Config, s: State, d: DeploymentId, outcome: Outcome, files: Files)
    requires RowsInv(s) && Enabled(s, StepFinalize(d)) && s.deployments[d].status != Active
    ensures RowsInv(AfterExtraction(cfg, s, d, outcome, files).1)
  {
    assert DeploymentOk(s, d);
    SameRowsButFiles(s, s.(files := files));
    if outcome.LimitExceeded? {
      DraftKeepsRows(s.(files := files), d, s.deployments[d].(status := Failed));
    } else if outcome.Extracted? {
      ActivateKeepsRows(cfg, s.(files := files), d, Some(s.now), true);
    }
  }

  lemma FinalizeKeepsRows(cfg: Config, s: State, d: DeploymentId)
    requires RowsInv(s) && d in s.deployments && s.deployments[d].app in s.apps
    ensures RowsInv(Finalize(cfg, s, d).1)
  {
    var outcome, files := FinalizeIs(cfg, s, d);
    if Finalize(cfg, s, d).1 != s {
      ExtractionKeepsRows(cfg, s, d, outcome, files);
    }
  }

  lemma StepKeepsRows(cfg: Config, s: State, step: Step)
    requires RowsInv(s) && Enabled(s, step)
    ensures RowsInv(Next(cfg, s, step))
  {
    match step
    case StepCreateApp(a, row) => CreateAppKeepsRows(s, a, row);
    case StepCreateDeployment(a, d, _, _) => DraftKeepsRows(s, d, Deployment(a, Draft, 0, None));
    case StepUpload(d, contentLength, data, storing) => UploadKeepsRows(cfg, s, d, contentLength, data, storing);
    case StepFinalize(d) => FinalizeKeepsRows(cfg, s, d);
    case StepRollback(d) =>
      var row := s.deployments[d];
      ActivateKeepsRows(cfg, s, d, if row.finalizedAt.Some? then row.finalizedAt else Some(s.now), false);
    case StepDeleteApp(a) => DeleteKeepsRows(cfg, s, a);
    case StepRenewExpiry(a) => RenewKeepsRows(cfg, s, a);
    case StepLoadApp(_, _) => SameRowsButFiles(s, Next(cfg, s, step));
    case StepTick(_) => SameRowsButFiles(s, Next(cfg, s, step));
  }

  // ---------- files ----------

  /** The homes of two deployments share nothing. */
  lemma HomesApart(cfg: Config, s: State, d: DeploymentId, e: DeploymentId, p: Path)
    requires d in s.deployments && e in s.deployments && d != e && HomeOf(cfg, s, e) <= p
    ensures !(HomeOf(cfg, s, d) <= p)
  {
    if HomeOf(cfg, s, d) <= p {
      HomesDisjoint(cfg.keyPrefix, s.deployments[d].app, d, s.deployments[e].app, e, p);
    }
  }

  lemma HousedBelow(cfg: Config, s: State, p: Path) returns (e: DeploymentId)
    requires InHome(cfg, s, p)
    ensures e in s.deployments && HomeOf(cfg, s, e) < p
    ensures p == ArtifactIn(HomeOf(cfg, s, e)) || TreeIn(HomeOf(cfg, s, e)) <= p
  {
    e :| e in s.deployments && (p == ArtifactIn(HomeOf(cfg, s, e)) || TreeIn(HomeOf(cfg, s, e)) <= p);
    BelowHome(HomeOf(cfg, s, e), p);
  }

  lemma BelowHome(home: Path, p: Path)
    requires p == ArtifactIn(home) || TreeIn(home) <= p
    ensures home < p
  {
    if TreeIn(home) <= p {
      assert home == TreeIn(home)[..|home|] == p[..|home|];
    }
  }

  lemma HomesEqualLength(cfg: Config, s: State, d: DeploymentId, e: DeploymentId)
    requires d in s.deployments && e in s.deployments
    ensures |HomeOf(cfg, s, d)| == |HomeOf(cfg, s, e)|
  {
  }

  /** Nothing else is ever in the way of an upload. */
  lemma UploadFits(cfg: Config, s: State, d: DeploymentId)
    requires Housed(cfg, s) && d in s.deployments
    ensures !Clashes(s.files, ArtifactIn(HomeOf(cfg, s, d)))
  {
    var home := HomeOf(cfg, s, d);
    forall q | q in s.files
      ensures !(q < ArtifactIn(home)) && !(ArtifactIn(home) < q)
    {
      var e := HousedBelow(cfg, s, q);
      HomesEqualLength(cfg, s, d, e);
      ArtifactBeside(home);
      if d != e {
        HomesApart(cfg, s, d, e, q);
        NotBelow(home, q);
      } else {
        BesideArtifact(home, q);
      }
    }
  }

  lemma NotBelow(home: Path, q: Path)
    requires !(home <= q) && |home| < |q|
    ensures !(q < ArtifactIn(home)) && !(ArtifactIn(home) < q)
  {
    AboveOrBelow(home, ArtifactIn(home), q);
  }

  lemma BesideArtifact(home: Path, q: Path)
    requires q == ArtifactIn(home) || TreeIn(home) <= q
    ensures !(q < ArtifactIn(home)) && !(ArtifactIn(home) < q)
  {
    Literals();
    if TreeIn(home) <= q {
      assert q[|home|] == EXTRACTED;
      assert ArtifactIn(home)[|home|] == ARTIFACT;
    }
  }

  /** Housing only depends on files and on which deployments there are. */
  lemma HousedFrame(cfg: Config, s: State, t: State)
    requires Housed(cfg, s) && t.files == s.files
    requires SameHomes(s, t)
    ensures Housed(cfg, t)
  {
    forall p | p in t.files
      ensures InHome(cfg, t, p)
    {
      var e := HousedBelow(cfg, s, p);
      assert HomeOf(cfg, t, e) == HomeOf(cfg, s, e);
    }
  }

  /** The files with this at the place of d's artifact, or nothing there. */
  function WithArtifact(cfg: Config, s: State, d: DeploymentId, left: Option<Bytes>): Files
    requires d in s.deployments
  {
    var key := ArtifactIn(HomeOf(cfg, s, d));
    match left
    case Some(data) => s.files[key := data]
    case None => s.files - {key}
  }

  lemma UploadKeepsHoused(cfg: Config, s: State, d: DeploymentId, left: Option<Bytes>)
    requires Housed(cfg, s) && d in s.deployments
    ensures Housed(cfg, s.(files := WithArtifact(cfg, s, d, left)))
  {
    var t := s.(files := WithArtifact(cfg, s, d, left));
    UploadFits(cfg, s, d);
    assert HomeOf(cfg, t, d) == HomeOf(cfg, s, d);
    forall p | p in t.files
      ensures InHome(cfg, t, p)
    {
      if p in s.files {
        var e := HousedBelow(cfg, s, p);
        assert HomeOf(cfg, t, e) == HomeOf(cfg, s, e);
      }
    }
  }

  lemma ExtractionKeepsHoused(cfg: Config, s: State, d: DeploymentId)
    requires Housed(cfg, s) && d in s.deployments
    ensures Housed(cfg, s.(files := ExtractArtifact(s.files, HomeOf(cfg, s, d), cfg.parse, cfg.limits).1))
  {
    var home := HomeOf(cfg, s, d);
    var t := s.(files := ExtractArtifact(s.files, home, cfg.parse, cfg.limits).1);
    ArtifactBeside(home);
    ArtifactStaysInside(s.files, home, cfg.parse, cfg.limits, ArtifactIn(home));
    assert HomeOf(cfg, t, d) == home;
    forall p | p in t.files
      ensures InHome(cfg, t, p)
    {
      if !(TreeIn(home) <= p) {
        ArtifactStaysInside(s.files, home, cfg.parse, cfg.limits, p);
        var e := HousedBelow(cfg, s, p);
        assert HomeOf(cfg, t, e) == HomeOf(cfg, s, e);
      }
    }
  }

  lemma DeletionKeepsHoused(cfg: Config, s: State, a: AppId)
    requires Housed(cfg, s)
    ensures Housed(cfg, DeleteApp(cfg, s, a))
  {
    var t := DeleteApp(cfg, s, a);
    forall p | p in t.files
      ensures InHome(cfg, t, p)
    {
      var e := HousedBelow(cfg, s, p);
      assert HomeOf(cfg, s, e) <= p;
      assert e in t.deployments && HomeOf(cfg, t, e) == HomeOf(cfg, s, e);
    }
  }

  /** The same deployments, whatever their status, and possibly more. */
  predicate SameHomes(s: State, t: State) {
    forall d | d in s.deployments :: d in t.deployments && t.deployments[d].app == s.deployments[d].app
  }

  predicate Live(row: Deployment) {
    row.status == Active || row.status == Superseded
  }

  /** What no request changes of a deployment: its app, and once it is live that it was, its artifact's size and its
      date. */
  predicate GoesOn(before: Deployment, after: Deployment) {
    && after.app == before.app
    && (Live(before) ==> Live(after) && after.artifactSize == before.artifactSize)
    && (Live(before) && before.finalizedAt.Some? ==> after.finalizedAt == before.finalizedAt)
  }

  lemma UploadRow(cfg: Config, s: State, d: DeploymentId, contentLength: Option<int>, data: Bytes, storing: Storing,
                  e: DeploymentId)
    requires d in s.deployments && e in s.deployments
    ensures var after := Upload(cfg, s, d, contentLength, data, storing).1.deployments;
            && e in after && GoesOn(s.deployments[e], after[e])
            && (e != d ==> after[e] == s.deployments[e])
  {
  }

  lemma ExtractionRow(cfg: Config, s: State, d: DeploymentId, outcome: Outcome, files: Files, e: DeploymentId)
    requires Enabled(s, StepFinalize(d)) && e in s.deployments && !Live(s.deployments[d])
    ensures var after := AfterExtraction(cfg, s, d, outcome, files).1.deployments;
            e in after && GoesOn(s.deployments[e], after[e]) && after[e].artifactSize == s.deployments[e].artifactSize
  {
  }

  lemma FinalizeRow(cfg: Config, s: State, d: DeploymentId, e: DeploymentId)
    requires Enabled(s, StepFinalize(d)) && e in s.deployments
    ensures var after := Finalize(cfg, s, d).1.deployments;
            e in after && GoesOn(s.deployments[e], after[e]) && after[e].artifactSize == s.deployments[e].artifactSize
  {
    var outcome, files := FinalizeIs(cfg, s, d);
    if Finalize(cfg, s, d).1 != s {
      ExtractionRow(cfg, s, d, outcome, files, e);
    }
  }

  lemma RollbackRow(cfg: Config, s: State, d: DeploymentId, e: DeploymentId)
    requires Enabled(s, StepRollback(d)) && e in s.deployments
    ensures var after := Rollback(cfg, s, d).1.deployments;
            e in after && GoesOn(s.deployments[e], after[e]) && after[e].artifactSize == s.deployments[e].artifactSize
  {
  }

  /** What any request leaves of a deployment that it does not delete. */
  lemma RowAfter(cfg: Config, s: State, step: Step, e: DeploymentId)
    requires Enabled(s, step) && e in s.deployments
    ensures var after := Next(cfg, s, step).deployments;
            && (e in after || step == StepDeleteApp(s.deployments[e].app))
            && (e in after ==> GoesOn(s.deployments[e], after[e]))
            && (e in after && !(step.StepUpload? && step.deployment == e) ==>
                after[e].artifactSize == s.deployments[e].artifactSize)
  {
    if step.StepUpload? {
      UploadRow(cfg, s, step.deployment, step.contentLength, step.data, step.storing, e);
    } else if step.StepFinalize? {
      FinalizeRow(cfg, s, step.deployment, e);
    } else if step.StepRollback? {
      RollbackRow(cfg, s, step.deployment, e);
    }
  }

  lemma HomesStay(cfg: Config, s: State, step: Step)
    requires Enabled(s, step) && !step.StepDeleteApp?
    ensures SameHomes(s, Next(cfg, s, step))
  {
    forall d | d in s.deployments
      ensures d in Next(cfg, s, step).deployments && Next(cfg, s, step).deployments[d].app == s.deployments[d].app
    {
      RowAfter(cfg, s, step, d);
    }
  }

  lemma StepKeepsHoused(cfg: Config, s: State, step: Step)
    requires Housed(cfg, s) && Enabled(s, step)
    ensures Housed(cfg, Next(cfg, s, step))
  {
    if step.StepDeleteApp? {
      DeletionKeepsHoused(cfg, s, step.app);
    } else {
      var t := Next(cfg, s, step);
      HomesStay(cfg, s, step);
      FilesAfter(cfg, s, step);
      if t.files == s.files {
        HousedFrame(cfg, s, t);
      } else if step.StepUpload? {
        UploadKeepsHoused(cfg, s, step.deployment, LeftOf(step.data, step.storing));
        HousedFrame(cfg, s.(files := t.files), t);
      } else {
        ExtractionKeepsHoused(cfg, s, step.deployment);
        HousedFrame(cfg, s.(files := t.files), t);
      }
    }
  }

  lemma UploadFiles(cfg: Config, s: State, d: DeploymentId, contentLength: Option<int>, data: Bytes, storing: Storing)
    requires d in s.deployments
    ensures var files := Upload(cfg, s, d, contentLength, data, storing).1.files;
            files == s.files || (!Closed(s, d) && files == WithArtifact(cfg, s, d, LeftOf(data, storing)))
  {
  }

  lemma FinalizeFiles(cfg: Config, s: State, d: DeploymentId)
    requires Enabled(s, StepFinalize(d))
    ensures var files := Finalize(cfg, s, d).1.files;
            files == s.files
            || (!Closed(s, d) && files == ExtractArtifact(s.files, HomeOf(cfg, s, d), cfg.parse, cfg.limits).1)
  {
    var outcome, files := FinalizeIs(cfg, s, d);
    if Finalize(cfg, s, d).1 != s {
      assert AfterExtraction(cfg, s, d, outcome, files).1.files == files;
    }
  }

  /** Only three kinds of request change files. */
  lemma FilesAfter(cfg: Config, s: State, step: Step)
    requires Enabled(s, step)
    ensures var files := Next(cfg, s, step).files;
            || files == s.files
            || (step.StepUpload? && !Closed(s, step.deployment)
                && files == WithArtifact(cfg, s, step.deployment, LeftOf(step.data, step.storing)))
            || (step.StepFinalize? && !Closed(s, step.deployment)
                && files == ExtractArtifact(s.files, HomeOf(cfg, s, step.deployment), cfg.parse, cfg.limits).1)
            || (step.StepDeleteApp? && files == WithoutApp(cfg, s, step.app))
  {
    if step.StepUpload? {
      UploadFiles(cfg, s, step.deployment, step.contentLength, step.data, step.storing);
    } else if step.StepFinalize? {
      FinalizeFiles(cfg, s, step.deployment);
    }
  }

  /** A deployment that is or was live. */
  predicate Closed(s: State, d: DeploymentId) {
    d in s.deployments && Live(s.deployments[d])
  }

  // ---------- the cache ----------

  /** The request that makes a deployment of app a current. */
  predicate Activates(cfg: Config, s: State, step: Step, a: AppId)
    requires Enabled(s, step)
  {
    match step
    case StepFinalize(d) => s.deployments[d].app == a && Finalize(cfg, s, d).0 == Done
    case StepRollback(d) => s.deployments[d].app == a && Rollback(cfg, s, d).0 == Done
    case _ => false
  }

  lemma ActivationLeavesOthers(cfg: Config, s: State, d: DeploymentId, finalizedAt: Option<Time>, renew: bool, a: AppId)
    requires RowsInv(s) && d in s.deployments && s.deployments[d].app in s.apps && a in s.apps
             && a != s.deployments[d].app
    ensures Stored(Activate(cfg, s, d, finalizedAt, renew), a) == Stored(s, a)
  {
    assert AppOk(s, a);
  }

  lemma RollbackLeavesOthers(cfg: Config, s: State, d: DeploymentId, a: AppId)
    requires RowsInv(s) && Enabled(s, StepRollback(d)) && a in s.apps
    ensures (Rollback(cfg, s, d).0 == Done && s.deployments[d].app == a)
            || Stored(Rollback(cfg, s, d).1, a) == Stored(s, a)
  {
    if Rollback(cfg, s, d).0 == Done && s.deployments[d].app != a {
      var row := s.deployments[d];
      ActivationLeavesOthers(cfg, s, d, if row.finalizedAt.Some? then row.finalizedAt else Some(s.now), false, a);
    }
  }

  lemma FinalizeLeavesOthers(cfg: Config, s: State, d: DeploymentId, a: AppId)
    requires RowsInv(s) && Enabled(s, StepFinalize(d)) && a in s.apps
    ensures (Finalize(cfg, s, d).0 == Done && s.deployments[d].app == a)
            || Stored(Finalize(cfg, s, d).1, a) == Stored(s, a)
  {
    var outcome, files := FinalizeIs(cfg, s, d);
    if Finalize(cfg, s, d).1 != s {
      ExtractionLeavesOthers(cfg, s, d, outcome, files, a);
    }
  }

  lemma ExtractionLeavesOthers(cfg: Config, s: State, d: DeploymentId, outcome: Outcome, files: Files, a: AppId)
    requires RowsInv(s) && Enabled(s, StepFinalize(d)) && a in s.apps && s.deployments[d].status != Active
    ensures var (reply, t) := AfterExtraction(cfg, s, d, outcome, files);
            (reply == Done && s.deployments[d].app == a) || Stored(t, a) == Stored(s, a)
  {
    if !outcome.Extracted? {
      assert AppOk(s, a);
    } else if s.deployments[d].app != a {
      SameRowsButFiles(s, s.(files := files));
      ActivationLeavesOthers(cfg, s.(files := files), d, Some(s.now), true, a);
    }
  }

  /** Only finalizing or rolling back changes which deployment an app serves, or that deployment's row. */
  lemma OnlyActivationChangesCurrent(cfg: Config, s: State, step: Step, a: AppId)
    requires RowsInv(s) && Enabled(s, step) && a in s.apps && a in Next(cfg, s, step).apps
    requires !Activates(cfg, s, step, a)
    ensures var t := Next(cfg, s, step);
            && t.apps[a] == s.apps[a].(expiresAt := t.apps[a].expiresAt)
            && Stored(t, a).deployment == Stored(s, a).deployment
  {
    if step.StepFinalize? {
      FinalizeLeavesOthers(cfg, s, step.deployment, a);
    } else if step.StepRollback? {
      RollbackLeavesOthers(cfg, s, step.deployment, a);
    } else {
      OthersKeepCurrent(cfg, s, step, a);
    }
  }

  lemma OthersKeepCurrent(cfg: Config, s: State, step: Step, a: AppId)
    requires RowsInv(s) && Enabled(s, step) && a in s.apps && a in Next(cfg, s, step).apps
    requires !step.StepFinalize? && !step.StepRollback?
    ensures var t := Next(cfg, s, step);
            && t.apps[a] == s.apps[a].(expiresAt := t.apps[a].expiresAt)
            && Stored(t, a).deployment == Stored(s, a).deployment
  {
    assert AppOk(s, a);
  }

  lemma FinalizeCache(cfg: Config, s: State, d: DeploymentId)
    requires Enabled(s, StepFinalize(d))
    ensures var (reply, t) := Finalize(cfg, s, d);
            t.cache == if reply == Done then s.cache - {s.apps[s.deployments[d].app].slug} else s.cache
  {
    var outcome, files := FinalizeIs(cfg, s, d);
  }

  lemma RollbackCache(cfg: Config, s: State, d: DeploymentId)
    requires Enabled(s, StepRollback(d))
    ensures var (reply, t) := Rollback(cfg, s, d);
            t.cache == if reply == Done then s.cache - {s.apps[s.deployments[d].app].slug} else s.cache
  {
  }

  /** What a step leaves in the cache: old entries, a fresh lookup, and nothing of an activated app. */
  lemma CacheAfter(cfg: Config, s: State, step: Step, slug: string)
    requires Enabled(s, step) && slug in Next(cfg, s, step).cache
    ensures var entry := Next(cfg, s, step).cache[slug];
            || (slug in s.cache && entry == s.cache[slug]
                && forall a | a in s.apps && Activates(cfg, s, step, a) :: s.apps[a].slug != slug)
            || (step.StepLoadApp? && step.found.Some? && s.apps[step.found.value].slug == slug
                && entry == Cached(s.now + cfg.cacheTtl, Stored(s, step.found.value)))
  {
    if step.StepFinalize? {
      FinalizeCache(cfg, s, step.deployment);
    } else if step.StepRollback? {
      RollbackCache(cfg, s, step.deployment);
    }
  }

  /** An entry stays right while its app, if it still exists, keeps slug, current deployment and that one's row. */
  lemma EntryStaysRight(s: State, t: State, slug: string, snapshot: Snapshot)
    requires Agrees(s, slug, snapshot) && s.everApps <= t.everApps
    requires snapshot.id in t.apps ==>
               && snapshot.id in s.apps
               && t.apps[snapshot.id].slug == s.apps[snapshot.id].slug
               && t.apps[snapshot.id].current == s.apps[snapshot.id].current
               && Stored(t, snapshot.id).deployment == Stored(s, snapshot.id).deployment
    ensures Agrees(t, slug, snapshot)
  {
  }

  /** The same apps as before. */
  predicate SameApps(s: State, t: State) {
    t.apps.Keys == s.apps.Keys && t.everApps == s.everApps
  }

  lemma FinalizeSameApps(cfg: Config, s: State, d: DeploymentId)
    requires Enabled(s, StepFinalize(d))
    ensures SameApps(s, Finalize(cfg, s, d).1)
  {
    var outcome, files := FinalizeIs(cfg, s, d);
  }

  lemma OthersSameApps(cfg: Config, s: State, step: Step)
    requires Enabled(s, step) && !step.StepFinalize? && !step.StepCreateApp? && !step.StepDeleteApp?
    ensures SameApps(s, Next(cfg, s, step))
  {
  }

  lemma AppsEver(cfg: Config, s: State, step: Step, a: AppId)
    requires Enabled(s, step)
    ensures s.everApps <= Next(cfg, s, step).everApps
    ensures a in s.everApps && a in Next(cfg, s, step).apps ==> a in s.apps
  {
    if step.StepFinalize? {
      FinalizeSameApps(cfg, s, step.deployment);
    } else if !step.StepCreateApp? && !step.StepDeleteApp? {
      OthersSameApps(cfg, s, step);
    }
  }

  lemma FreshEntryAgrees(cfg: Config, s: State, slug: string, a: AppId)
    requires RowsInv(s) && Enabled(s, StepLoadApp(slug, Some(a)))
    ensures Agrees(LoadApp(cfg, s, slug, Some(a)).1, slug, Stored(s, a))
  {
    assert AppOk(s, a);
  }

  lemma CacheEntryAgrees(cfg: Config, s: State, step: Step, slug: string)
    requires RowsInv(s) && CacheAgrees(s) && Enabled(s, step) && slug in Next(cfg, s, step).cache
    ensures Agrees(Next(cfg, s, step), slug, Next(cfg, s, step).cache[slug].snapshot)
  {
    CacheAfter(cfg, s, step, slug);
    var entry := Next(cfg, s, step).cache[slug];
    if slug in s.cache && entry == s.cache[slug] {
      assert Agrees(s, slug, entry.snapshot);
      AppsEver(cfg, s, step, entry.snapshot.id);
      if entry.snapshot.id in Next(cfg, s, step).apps {
        OnlyActivationChangesCurrent(cfg, s, step, entry.snapshot.id);
      }
      EntryStaysRight(s, Next(cfg, s, step), slug, entry.snapshot);
    } else {
      FreshEntryAgrees(cfg, s, slug, entry.snapshot.id);
    }
  }

  lemma StepKeepsCache(cfg: Config, s: State, step: Step)
    requires RowsInv(s) && CacheAgrees(s) && Enabled(s, step)
    ensures CacheAgrees(Next(cfg, s, step))
  {
    forall slug | slug in Next(cfg, s, step).cache
      ensures Agrees(Next(cfg, s, step), slug, Next(cfg, s, step).cache[slug].snapshot)
    {
      CacheEntryAgrees(cfg, s, step, slug);
    }
  }

  // ---------- every history ----------

  lemma {:induction false} Reachable(cfg: Config, r: Run, k: nat)
    requires Legal(cfg, r) && k <= |r.steps|
    ensures Inv(cfg, r.states[k])
  {
    if k > 0 {
      Reachable(cfg, r, k - 1);
      assert StepOk(cfg, r, k - 1);
      StepKeepsRows(cfg, r.states[k - 1], r.steps[k - 1]);
      StepKeepsHoused(cfg, r.states[k - 1], r.steps[k - 1]);
      StepKeepsCache(cfg, r.states[k - 1], r.steps[k - 1]);
    }
  }

  /** At any moment an app has a current deployment exactly when one of its deployments is active, and it is that
      one. */
  lemma OneActiveAndCurrent(cfg: Config, r: Run, k: nat, a: AppId)
    requires Legal(cfg, r) && k <= |r.steps| && a in r.states[k].apps
    ensures var s := r.states[k];
            && (forall d | d in DeploymentsOf(s, a) ::
                  s.deployments[d].status == Active <==> s.apps[a].current == Some(d))
            && (forall d, e | d in DeploymentsOf(s, a) && e in DeploymentsOf(s, a)
                  && s.deployments[d].status == Active && s.deployments[e].status == Active :: d == e)
            && (s.apps[a].current.Some? <==> exists d :: d in DeploymentsOf(s, a) && s.deployments[d].status == Active)
  {
    Reachable(cfg, r, k);
    var s := r.states[k];
    assert AppOk(s, a);
    assert forall d | d in DeploymentsOf(s, a) :: DeploymentOk(s, d);
    if s.apps[a].current.Some? {
      assert s.apps[a].current.value in DeploymentsOf(s, a);
    }
  }

  // ---------- what was live stays as it was ----------

  ghost function TreeAt(cfg: Config, s: State, d: DeploymentId): Files
    requires d in s.deployments
  {
    TreeOf(s.files, TreeIn(HomeOf(cfg, s, d)))
  }

  predicate SameAt(files: Files, after: Files, p: Path) {
    (p in after <==> p in files) && (p in files ==> after[p] == files[p])
  }

  lemma SameTree(files: Files, files': Files, tree: Path)
    requires forall p | tree <= p :: SameAt(files, files', p)
    ensures TreeOf(files, tree) == TreeOf(files', tree)
  {
    forall tail
      ensures tail in TreeOf(files, tree) <==> tail in TreeOf(files', tree)
      ensures tail in TreeOf(files, tree) ==> TreeOf(files, tree)[tail] == TreeOf(files', tree)[tail]
    {
      TreeLookup(files, tree, tail);
      TreeLookup(files', tree, tail);
      assert tree <= tree + tail && SameAt(files, files', tree + tail);
    }
  }

  /** Files in the home of d change only by requests about d or the deletion of its app. */
  lemma HomeUntouched(cfg: Config, s: State, step: Step, d: DeploymentId, p: Path)
    requires Inv(cfg, s) && Enabled(s, step) && d in s.deployments && HomeOf(cfg, s, d) <= p
    requires d in Next(cfg, s, step).deployments
    requires Closed(s, d) || ((step.StepUpload? || step.StepFinalize?) ==> step.deployment != d)
    ensures SameAt(s.files, Next(cfg, s, step).files, p)
  {
    FilesAfter(cfg, s, step);
    if (step.StepUpload? || step.StepFinalize?) && step.deployment != d {
      HomesApart(cfg, s, step.deployment, d, p);
      WorkElsewhere(cfg, s, step.deployment, p);
    }
    if step.StepDeleteApp? {
      forall e | e in DeploymentsOf(s, step.app)
        ensures !(HomeOf(cfg, s, e) <= p)
      {
        HomesApart(cfg, s, e, d, p);
      }
    }
  }

  /** Storing and extracting an artifact stay in the home of its deployment. */
  lemma WorkElsewhere(cfg: Config, s: State, e: DeploymentId, p: Path)
    requires Inv(cfg, s) && e in s.deployments && !(HomeOf(cfg, s, e) <= p)
    ensures forall left :: SameAt(s.files, WithArtifact(cfg, s, e, left), p)
    ensures SameAt(s.files, ExtractArtifact(s.files, HomeOf(cfg, s, e), cfg.parse, cfg.limits).1, p)
  {
    var home := HomeOf(cfg, s, e);
    BelowHomes(home, p);
    ArtifactStaysInside(s.files, home, cfg.parse, cfg.limits, p);
  }

  lemma BelowHomes(home: Path, p: Path)
    requires !(home <= p)
    ensures p != ArtifactIn(home) && !(TreeIn(home) <= p)
  {
    if p == ArtifactIn(home) || TreeIn(home) <= p {
      BelowHome(home, p);
    }
  }

  lemma StepKeepsLive(cfg: Config, s: State, step: Step, d: DeploymentId)
    requires Inv(cfg, s) && Enabled(s, step) && Closed(s, d) && d in Next(cfg, s, step).deployments
    ensures Closed(Next(cfg, s, step), d)
    ensures HomeOf(cfg, Next(cfg, s, step), d) == HomeOf(cfg, s, d)
    ensures TreeAt(cfg, Next(cfg, s, step), d) == TreeAt(cfg, s, d)
  {
    ClosedStays(cfg, s, step, d);
    var t, tree := Next(cfg, s, step), TreeIn(HomeOf(cfg, s, d));
    forall p | tree <= p
      ensures SameAt(s.files, t.files, p)
    {
      BelowHome(HomeOf(cfg, s, d), p);
      HomeUntouched(cfg, s, step, d, p);
    }
    SameTree(s.files, t.files, tree);
  }

  /** Active and superseded together are closed under every request. */
  lemma ClosedStays(cfg: Config, s: State, step: Step, d: DeploymentId)
    requires Enabled(s, step) && Closed(s, d) && d in Next(cfg, s, step).deployments
    ensures Closed(Next(cfg, s, step), d)
    ensures GoesOn(s.deployments[d], Next(cfg, s, step).deployments[d])
  {
    RowAfter(cfg, s, step, d);
  }

  /** Rolling back serves what was served before: once live, a deployment's files never change while it exists. */
  lemma {:induction false} LiveFilesNeverChange(cfg: Config, r: Run, i: nat, j: nat, d: DeploymentId)
    requires Legal(cfg, r) && i <= j <= |r.steps|
    requires Closed(r.states[i], d) && forall k | i <= k <= j :: d in r.states[k].deployments
    ensures Closed(r.states[j], d)
    ensures HomeOf(cfg, r.states[j], d) == HomeOf(cfg, r.states[i], d)
    ensures TreeAt(cfg, r.states[j], d) == TreeAt(cfg, r.states[i], d)
    decreases j
  {
    if i < j {
      LiveFilesNeverChange(cfg, r, i, j - 1, d);
      assert StepOk(cfg, r, j - 1);
      Reachable(cfg, r, j - 1);
      StepKeepsLive(cfg, r.states[j - 1], r.steps[j - 1], d);
    }
  }

  /** Finalizing one deployment leaves the files of all others alone, whatever comes of it. */
  lemma FinalizeKeepsOtherTrees(cfg: Config, s: State, d: DeploymentId, e: DeploymentId)
    requires Inv(cfg, s) && Enabled(s, StepFinalize(d)) && e in s.deployments && e != d
    requires e in Finalize(cfg, s, d).1.deployments && HomeOf(cfg, Finalize(cfg, s, d).1, e) == HomeOf(cfg, s, e)
    ensures TreeAt(cfg, Finalize(cfg, s, d).1, e) == TreeAt(cfg, s, e)
  {
    var t, tree := Finalize(cfg, s, d).1, TreeIn(HomeOf(cfg, s, e));
    forall p | tree <= p
      ensures SameAt(s.files, t.files, p)
    {
      BelowHome(HomeOf(cfg, s, e), p);
      HomeUntouched(cfg, s, StepFinalize(d), e, p);
    }
    SameTree(s.files, t.files, tree);
  }

  /** A finalize that does not succeed changes at most the status of its own deployment, and nothing at all about one
      that is or was live. */
  lemma FailedFinalizeKeepsRows(cfg: Config, s: State, d: DeploymentId)
    requires Enabled(s, StepFinalize(d)) && Finalize(cfg, s, d).0 != Done
    ensures var (reply, t) := Finalize(cfg, s, d);
            && t.apps == s.apps && t.cache == s.cache
            && t.deployments == (if reply != BadArtifact then s.deployments
                                 else s.deployments[d := s.deployments[d].(status := Failed)])
            && (Closed(s, d) ==> t == s)
  {
    var outcome, files := FinalizeIs(cfg, s, d);
  }

  /** A deployment that is there on both sides with the same row and the same extracted files. */
  ghost predicate Untouched(cfg: Config, s: State, t: State, c: DeploymentId) {
    && c in s.deployments && c in t.deployments
    && t.deployments[c] == s.deployments[c] && TreeAt(cfg, t, c) == TreeAt(cfg, s, c)
  }

  /** So a failed finalize leaves the current deployment of every app, and its files, as they were. */
  lemma FailedFinalizeKeepsCurrent(cfg: Config, s: State, d: DeploymentId, a: AppId)
    requires Inv(cfg, s) && Enabled(s, StepFinalize(d)) && Finalize(cfg, s, d).0 != Done
    requires a in s.apps && s.apps[a].current.Some?
    ensures Finalize(cfg, s, d).1.apps == s.apps && Finalize(cfg, s, d).1.cache == s.cache
    ensures Untouched(cfg, s, Finalize(cfg, s, d).1, s.apps[a].current.value)
  {
    var c := s.apps[a].current.value;
    assert AppOk(s, a);
    FailedFinalizeKeepsRows(cfg, s, d);
    if c != d {
      FinalizeKeepsOtherTrees(cfg, s, d, c);
    }
  }

  /** What a successful finalize leaves. */
  lemma FinalizedState(cfg: Config, s: State, d: DeploymentId)
    requires Enabled(s, StepFinalize(d)) && Finalize(cfg, s, d).0 == Done
    ensures var t, a := Finalize(cfg, s, d).1, s.deployments[d].app;
            var (outcome, files) := ExtractArtifact(s.files, HomeOf(cfg, s, d), cfg.parse, cfg.limits);
            && outcome.Extracted? && t.files == files && t.now == s.now
            && d in t.deployments && HomeOf(cfg, t, d) == HomeOf(cfg, s, d) && t.deployments[d].status == Active
            && a in t.apps && t.apps[a].current == Some(d) && t.apps[a].slug == s.apps[a].slug
            && t.cache == s.cache - {s.apps[a].slug}
  {
    var outcome, files := FinalizeIs(cfg, s, d);
  }

  predicate IsCurrent(s: State, a: AppId, d: DeploymentId) {
    a in s.apps && s.apps[a].current == Some(d)
  }

  /** A successful finalize makes d current and keeps the uploaded artifact. It serves exactly the archive's last
      contents, unless an earlier failure left a plain file at the tree's place and the archive has nothing to write
      over it. */
  lemma FinalizeServesArchive(cfg: Config, s: State, d: DeploymentId)
    requires Inv(cfg, s) && Enabled(s, StepFinalize(d)) && Finalize(cfg, s, d).0 == Done
    ensures var home, t := HomeOf(cfg, s, d), Finalize(cfg, s, d).1;
            && IsCurrent(t, s.deployments[d].app, d)
            && ArtifactIn(home) in s.files && SameAt(s.files, t.files, ArtifactIn(home))
            && var entries := ArchiveEntries(s.files, home, cfg.parse);
               d in t.deployments
               && (TreeAt(cfg, t, d) == LastWins(entries) <==> !(TreeIn(home) in s.files && entries == []))
  {
    var home := HomeOf(cfg, s, d);
    FinalizedState(cfg, s, d);
    ArtifactBeside(home);
    ArtifactStaysInside(s.files, home, cfg.parse, cfg.limits, ArtifactIn(home));
    ArtifactTree(s.files, home, cfg.parse, cfg.limits);
  }

  // ---------- the cache over time ----------

  /** For an app that still exists the cache never disagrees with the database about what to serve. */
  lemma CacheServesCurrent(cfg: Config, r: Run, k: nat, slug: string, found: Option<AppId>)
    requires Legal(cfg, r) && k <= |r.steps| && Finds(r.states[k], slug, found)
    ensures var s := r.states[k];
            var loaded := LoadApp(cfg, s, slug, found).0;
            loaded.Some? && loaded.value.id in s.apps ==>
              && found == Some(loaded.value.id)
              && Resolve(loaded.value) == s.apps[loaded.value.id].current == Resolve(Stored(s, loaded.value.id))
  {
    Reachable(cfg, r, k);
    var s, loaded := r.states[k], LoadApp(cfg, r.states[k], slug, found).0;
    if loaded.Some? && loaded.value.id in s.apps {
      assert AppOk(s, loaded.value.id);
      if slug in s.cache {
        assert Agrees(s, slug, s.cache[slug].snapshot);
      }
    }
  }

  /** A cached lookup was the database's answer exactly one TTL before it expires. */
  lemma {:induction false} CachedWasStored(cfg: Config, r: Run, k: nat, slug: string) returns (i: nat)
    requires Legal(cfg, r) && k <= |r.steps| && slug in r.states[k].cache
    ensures i <= k
    ensures var entry := r.states[k].cache[slug];
            && entry.snapshot.id in r.states[i].apps && entry.snapshot == Stored(r.states[i], entry.snapshot.id)
            && entry.snapshot.app.slug == slug && entry.expires == r.states[i].now + cfg.cacheTtl
  {
    assert StepOk(cfg, r, k - 1);
    var s, step := r.states[k - 1], r.steps[k - 1];
    CacheAfter(cfg, s, step, slug);
    if slug in s.cache && r.states[k].cache[slug] == s.cache[slug] {
      i := CachedWasStored(cfg, r, k - 1, slug);
    } else {
      i := k - 1;
    }
  }

  /** Whatever a lookup returns, the database held all of it less than one TTL ago, or holds it now. */
  lemma LookupsAreRecent(cfg: Config, r: Run, k: nat, slug: string, found: Option<AppId>) returns (i: nat)
    requires Legal(cfg, r) && k <= |r.steps| && Finds(r.states[k], slug, found)
    requires LoadApp(cfg, r.states[k], slug, found).0.Some?
    ensures var loaded := LoadApp(cfg, r.states[k], slug, found).0.value;
            && i <= k && loaded.id in r.states[i].apps && loaded == Stored(r.states[i], loaded.id)
            && loaded.app.slug == slug
            && (i == k || r.states[k].now < r.states[i].now + cfg.cacheTtl)
  {
    var s := r.states[k];
    if cfg.cacheTtl > 0 && slug in s.cache && s.now < s.cache[slug].expires {
      i := CachedWasStored(cfg, r, k, slug);
    } else {
      i := k;
    }
  }

  /** Deleting an app leaves it in the cache: an app that takes over its slug is not found until the entry expires. */
  lemma LookupFindsOwner(cfg: Config, r: Run, k: nat, slug: string, a: AppId)
    requires Legal(cfg, r) && k <= |r.steps| && Finds(r.states[k], slug, Some(a))
    ensures var s := r.states[k];
            var loaded := LoadApp(cfg, s, slug, Some(a)).0;
            && loaded.Some?
            && (loaded.value.id == a <==>
                cfg.cacheTtl <= 0 || slug !in s.cache || s.cache[slug].expires <= s.now
                  || s.cache[slug].snapshot.id in s.apps)
  {
    Reachable(cfg, r, k);
    var s := r.states[k];
    if slug in s.cache {
      assert Agrees(s, slug, s.cache[slug].snapshot);
    }
  }

  function Last(r: Run): State
    requires |r.states| > 0
  {
    r.states[|r.states| - 1]
  }

  lemma GoOn(cfg: Config, r: Run, step: Step) returns (longer: Run)
    requires Legal(cfg, r) && Enabled(Last(r), step)
    ensures Legal(cfg, longer) && Last(longer) == Next(cfg, Last(r), step)
  {
    LegalExtended(cfg, r, step);
    longer := Run(r.steps + [step], r.states + [Next(cfg, Last(r), step)]);
  }

  /** A slug without an app is answered from the cache exactly while an entry for it lives, and that is a deleted
      app. */
  lemma LookupOfFreeSlug(cfg: Config, r: Run, k: nat, slug: string)
    requires Legal(cfg, r) && k <= |r.steps| && Finds(r.states[k], slug, None)
    ensures var s, loaded := r.states[k], LoadApp(cfg, r.states[k], slug, None).0;
            && (loaded == None <==> cfg.cacheTtl <= 0 || slug !in s.cache || s.cache[slug].expires <= s.now)
            && (loaded.Some? ==> loaded.value.id in s.everApps && loaded.value.id !in s.apps)
  {
    Reachable(cfg, r, k);
    var s := r.states[k];
    if slug in s.cache {
      assert Agrees(s, slug, s.cache[slug].snapshot);
    }
  }

  /** It does happen: an app that has just been served is deleted, and requests still find it. */
  lemma DeletedAppIsFound(cfg: Config, a: AppId, row: App) returns (r: Run)
    requires cfg.cacheTtl > 0 && PlainId(a)
    ensures Legal(cfg, r) && Finds(Last(r), row.slug, None)
    ensures var loaded := LoadApp(cfg, Last(r), row.slug, None).0;
            loaded.Some? && loaded.value.id == a
  {
    r := GoOn(cfg, Run([], [Init()]), StepCreateApp(a, row));
    r := GoOn(cfg, r, StepLoadApp(row.slug, Some(a)));
    r := GoOn(cfg, r, StepDeleteApp(a));
  }

  /** Deleting an app leaves no file in the home of any of its deployments. */
  lemma DeletionRemovesFiles(cfg: Config, s: State, a: AppId, d: DeploymentId, p: Path)
    requires Inv(cfg, s) && a in s.apps && PlainId(d) && Home(cfg.keyPrefix, a, d) <= p
    ensures p !in DeleteApp(cfg, s, a).files
  {
    if p in s.files {
      var e := HousedBelow(cfg, s, p);
      HomesDisjoint(cfg.keyPrefix, a, d, s.deployments[e].app, e, p);
    }
  }

  // ---------- expiry, first activation, artifacts ----------

  /** An expired site comes back only by a successful deploy: nothing else gives it a later expiry. */
  lemma ExpiredStaysExpired(cfg: Config, s: State, step: Step, a: AppId)
    requires RowsInv(s) && Enabled(s, step) && a in s.apps && a in Next(cfg, s, step).apps && Expired(s.apps[a], s.now)
    requires !(step.StepFinalize? && Activates(cfg, s, step, a))
    ensures Expired(Next(cfg, s, step).apps[a], Next(cfg, s, step).now)
  {
    assert AppOk(s, a);
  }

  /** An app row goes on with its creator, and with its expiry unless that is set to some days from now. */
  predicate ExpiryGoesOn(cfg: Config, now: Time, before: App, after: App) {
    && after.createdBy == before.createdBy
    && (after.expiresAt == before.expiresAt || after.expiresAt == Some(PreviewExpiresAt(cfg, now)))
  }

  lemma FinalizeExpiry(cfg: Config, s: State, d: DeploymentId, a: AppId)
    requires Enabled(s, StepFinalize(d)) && a in s.apps
    ensures var t := Finalize(cfg, s, d).1;
            a in t.apps && t.now == s.now && ExpiryGoesOn(cfg, s.now, s.apps[a], t.apps[a])
  {
    var outcome, files := FinalizeIs(cfg, s, d);
  }

  lemma RollbackExpiry(cfg: Config, s: State, d: DeploymentId, a: AppId)
    requires Enabled(s, StepRollback(d)) && a in s.apps
    ensures var t := Rollback(cfg, s, d).1;
            a in t.apps && t.now == s.now && ExpiryGoesOn(cfg, s.now, s.apps[a], t.apps[a])
  {
  }

  /** Expiry dates are set in one way only: to some days from now. */
  lemma ExpiryAfter(cfg: Config, s: State, step: Step, a: AppId)
    requires Enabled(s, step) && a in s.apps && a in Next(cfg, s, step).apps && !step.StepCreateApp?
    ensures ExpiryGoesOn(cfg, s.now, s.apps[a], Next(cfg, s, step).apps[a]) && s.now <= Next(cfg, s, step).now
  {
    if step.StepFinalize? {
      FinalizeExpiry(cfg, s, step.deployment, a);
    } else if step.StepRollback? {
      RollbackExpiry(cfg, s, step.deployment, a);
    }
  }

  lemma NewAppsLeaveOthers(cfg: Config, s: State, step: Step, a: AppId)
    requires RowsInv(s) && Enabled(s, step) && step.StepCreateApp? && a in s.apps
    ensures Next(cfg, s, step).apps[a] == s.apps[a] && Next(cfg, s, step).now == s.now
  {
    assert AppOk(s, a);
  }

  /** The app expires at the given time or later, if at all. */
  predicate LivesUntil(app: App, t: Time) {
    app.expiresAt.Some? ==> t <= app.expiresAt.value
  }

  /** Once an app lives until some day, it does so later too, whatever is requested meanwhile. */
  lemma {:induction false} LifeStays(cfg: Config, r: Run, m: nat, j: nat, a: AppId, since: Time)
    requires Legal(cfg, r) && m <= j <= |r.steps| && forall k | m <= k <= j :: a in r.states[k].apps
    requires LivesUntil(r.states[m].apps[a], since + DAY) && since <= r.states[m].now
    ensures LivesUntil(r.states[j].apps[a], since + DAY) && since <= r.states[j].now
    decreases j
  {
    if m < j {
      LifeStays(cfg, r, m, j - 1, a, since);
      assert StepOk(cfg, r, j - 1);
      Reachable(cfg, r, j - 1);
      LifeGoesOn(cfg, r.states[j - 1], r.steps[j - 1], a, since);
    }
  }

  lemma FinalizedNext(cfg: Config, r: Run, i: nat, d: DeploymentId)
    requires Legal(cfg, r) && i < |r.steps| && r.steps[i] == StepFinalize(d)
    ensures Enabled(r.states[i], StepFinalize(d)) && r.states[i + 1] == Finalize(cfg, r.states[i], d).1
  {
    assert StepOk(cfg, r, i);
  }

  /** A preview that has been deployed lives for at least a day, whatever is requested meanwhile. */
  lemma PreviewLivesADay(cfg: Config, r: Run, i: nat, j: nat, d: DeploymentId)
    requires Legal(cfg, r) && i < j <= |r.steps| && r.steps[i] == StepFinalize(d)
    requires Enabled(r.states[i], r.steps[i]) && Finalize(cfg, r.states[i], d).0 == Done
    requires var a := r.states[i].deployments[d].app;
             r.states[i].apps[a].createdBy.Some? && forall k | i <= k <= j :: a in r.states[k].apps
    ensures var a := r.states[i].deployments[d].app;
            r.states[j].now < r.states[i].now + DAY ==> !Expired(r.states[j].apps[a], r.states[j].now)
  {
    FinalizedNext(cfg, r, i, d);
    DeployRenewsPreview(cfg, r.states[i], d);
    LifeStays(cfg, r, i + 1, j, r.states[i].deployments[d].app, r.states[i].now);
  }

  lemma LifeGoesOn(cfg: Config, s: State, step: Step, a: AppId, since: Time)
    requires RowsInv(s) && Enabled(s, step) && a in s.apps && a in Next(cfg, s, step).apps
    requires LivesUntil(s.apps[a], since + DAY) && since <= s.now
    ensures LivesUntil(Next(cfg, s, step).apps[a], since + DAY) && since <= Next(cfg, s, step).now
  {
    if step.StepCreateApp? {
      NewAppsLeaveOthers(cfg, s, step, a);
    } else {
      ExpiryAfter(cfg, s, step, a);
    }
  }

  lemma DeployRenewsPreview(cfg: Config, s: State, d: DeploymentId)
    requires Enabled(s, StepFinalize(d)) && Finalize(cfg, s, d).0 == Done
             && s.apps[s.deployments[d].app].createdBy.Some?
    ensures Finalize(cfg, s, d).1.now == s.now
    ensures Finalize(cfg, s, d).1.apps[s.deployments[d].app].expiresAt == Some(PreviewExpiresAt(cfg, s.now))
  {
  }

  predicate FirstActivated(s: State, d: DeploymentId, at: Time) {
    d in s.deployments && s.deployments[d].finalizedAt == Some(at)
  }

  lemma {:induction false} LiveHasDate(cfg: Config, r: Run, k: nat, d: DeploymentId)
    requires Legal(cfg, r) && k <= |r.steps| && Closed(r.states[k], d)
    ensures r.states[k].deployments[d].finalizedAt.Some?
  {
    if k > 0 {
      assert StepOk(cfg, r, k - 1);
      var s, step := r.states[k - 1], r.steps[k - 1];
      Reachable(cfg, r, k - 1);
      if Closed(s, d) {
        LiveHasDate(cfg, r, k - 1, d);
        RowAfter(cfg, s, step, d);
      } else {
        FirstActivation(cfg, s, step, d);
      }
    }
  }

  lemma FinalizeActivates(cfg: Config, s: State, d: DeploymentId, e: DeploymentId)
    requires Enabled(s, StepFinalize(d)) && !Closed(s, e) && Closed(Finalize(cfg, s, d).1, e)
    ensures e == d && Finalize(cfg, s, d).0 == Done && FirstActivated(Finalize(cfg, s, d).1, d, s.now)
  {
    var outcome, files := FinalizeIs(cfg, s, d);
  }

  lemma RollbackActivatesNone(cfg: Config, s: State, d: DeploymentId, e: DeploymentId)
    requires RowsInv(s) && Enabled(s, StepRollback(d)) && !Closed(s, e)
    ensures !Closed(Rollback(cfg, s, d).1, e)
  {
    assert DeploymentOk(s, d);
  }

  /** Only a finalize makes a deployment live, and it records the moment. */
  lemma FirstActivation(cfg: Config, s: State, step: Step, d: DeploymentId)
    requires RowsInv(s) && Enabled(s, step) && !Closed(s, d) && Closed(Next(cfg, s, step), d)
    ensures step == StepFinalize(d) && Finalize(cfg, s, d).0 == Done
    ensures FirstActivated(Next(cfg, s, step), d, s.now)
  {
    if step.StepFinalize? {
      FinalizeActivates(cfg, s, step.deployment, d);
    } else if step.StepRollback? {
      RollbackActivatesNone(cfg, s, step.deployment, d);
    }
  }

  /** finalized_at is the moment of the first activation for good: no rollback changes it. */
  lemma {:induction false} FinalizedAtIsSetOnce(cfg: Config, r: Run, i: nat, j: nat, d: DeploymentId)
    requires Legal(cfg, r) && i <= j <= |r.steps|
    requires Closed(r.states[i], d) && forall k | i <= k <= j :: d in r.states[k].deployments
    ensures Closed(r.states[j], d) && r.states[j].deployments[d].finalizedAt == r.states[i].deployments[d].finalizedAt
    decreases j
  {
    if i < j {
      FinalizedAtIsSetOnce(cfg, r, i, j - 1, d);
      assert StepOk(cfg, r, j - 1);
      Reachable(cfg, r, j - 1);
      LiveHasDate(cfg, r, j - 1, d);
      ClosedStays(cfg, r.states[j - 1], r.steps[j - 1], d);
    }
  }

  /** The artifact of a deployment with a recorded size is stored, in that size. */
  predicate ArtifactStored(cfg: Config, s: State, d: DeploymentId)
    requires d in s.deployments
  {
    var key := ArtifactIn(HomeOf(cfg, s, d));
    s.deployments[d].artifactSize > 0 ==> key in s.files && |s.files[key]| == s.deployments[d].artifactSize
  }

  /** An upload for d that gets as far as the storage: it is answered with success or a storage failure. */
  predicate Stores(cfg: Config, s: State, step: Step, d: DeploymentId)
    requires Enabled(s, step)
  {
    step.StepUpload? && step.deployment == d
    && var reply := Upload(cfg, s, d, step.contentLength, step.data, step.storing).0;
       reply == Done || reply == StorageFailed
  }

  /** What the last upload for d that got to the storage left there. */
  ghost function LastLeft(cfg: Config, r: Run, k: nat, d: DeploymentId): Option<Bytes>
    requires Legal(cfg, r) && k <= |r.steps|
  {
    if k == 0 then None
    else
      assert StepOk(cfg, r, k - 1);
      var step := r.steps[k - 1];
      if Stores(cfg, r.states[k - 1], step, d) then LeftOf(step.data, step.storing) else LastLeft(cfg, r, k - 1, d)
  }

  predicate Holds(files: Files, key: Path, content: Option<Bytes>) {
    match content
    case Some(data) => key in files && files[key] == data
    case None => key !in files
  }

  /** Storing leaves the artifact as storing goes; only when all of it is stored the row takes its size. */
  lemma StoresIs(cfg: Config, s: State, step: Step, d: DeploymentId)
    requires Inv(cfg, s) && Enabled(s, step) && Stores(cfg, s, step, d)
    ensures var t := Next(cfg, s, step);
            && d in t.deployments && HomeOf(cfg, t, d) == HomeOf(cfg, s, d)
            && Holds(t.files, ArtifactIn(HomeOf(cfg, s, d)), LeftOf(step.data, step.storing))
            && t.deployments[d].artifactSize
               == if step.storing.Complete? then |step.data| else s.deployments[d].artifactSize
  {
    UploadFits(cfg, s, d);
  }

  lemma NewIsEmpty(cfg: Config, s: State, step: Step, d: DeploymentId)
    requires Enabled(s, step) && d !in s.deployments && d in Next(cfg, s, step).deployments
    ensures Next(cfg, s, step).deployments[d].artifactSize == 0
  {
  }

  lemma FinalizeKeepsArtifact(cfg: Config, s: State, d: DeploymentId)
    requires Inv(cfg, s) && Enabled(s, StepFinalize(d))
    ensures SameAt(s.files, Finalize(cfg, s, d).1.files, ArtifactIn(HomeOf(cfg, s, d)))
  {
    var home := HomeOf(cfg, s, d);
    FinalizeFiles(cfg, s, d);
    ArtifactBeside(home);
    ArtifactStaysInside(s.files, home, cfg.parse, cfg.limits, ArtifactIn(home));
  }

  lemma RefusedUploadKeepsArtifact(cfg: Config, s: State, step: Step, d: DeploymentId)
    requires Enabled(s, step) && step.StepUpload? && step.deployment == d && !Stores(cfg, s, step, d)
    ensures Next(cfg, s, step) == s
  {
  }

  /** Whatever else happens leaves the artifact and its size alone. */
  lemma StepKeepsArtifact(cfg: Config, s: State, step: Step, d: DeploymentId)
    requires Inv(cfg, s) && Enabled(s, step) && d in s.deployments && d in Next(cfg, s, step).deployments
    requires !Stores(cfg, s, step, d)
    ensures var t, key := Next(cfg, s, step), ArtifactIn(HomeOf(cfg, s, d));
            && HomeOf(cfg, t, d) == HomeOf(cfg, s, d)
            && t.deployments[d].artifactSize == s.deployments[d].artifactSize
            && SameAt(s.files, t.files, key)
  {
    var home := HomeOf(cfg, s, d);
    if step.StepUpload? && step.deployment == d {
      RefusedUploadKeepsArtifact(cfg, s, step, d);
    } else {
      RowAfter(cfg, s, step, d);
      ArtifactBeside(home);
      if step == StepFinalize(d) {
        FinalizeKeepsArtifact(cfg, s, d);
      } else {
        HomeUntouched(cfg, s, step, d, ArtifactIn(home));
      }
    }
  }

  /** Once a size is recorded, the artifact in storage is what the last upload that got there left. */
  lemma {:induction false} ArtifactIsTheLastLeft(cfg: Config, r: Run, k: nat, d: DeploymentId)
    requires Legal(cfg, r) && k <= |r.steps| && d in r.states[k].deployments
    ensures var s := r.states[k];
            s.deployments[d].artifactSize > 0 ==>
              Holds(s.files, ArtifactIn(HomeOf(cfg, s, d)), LastLeft(cfg, r, k, d))
  {
    if k > 0 {
      assert StepOk(cfg, r, k - 1);
      var s, step := r.states[k - 1], r.steps[k - 1];
      Reachable(cfg, r, k - 1);
      if d !in s.deployments {
        NewIsEmpty(cfg, s, step, d);
      } else if Stores(cfg, s, step, d) {
        StoresIs(cfg, s, step, d);
      } else {
        ArtifactIsTheLastLeft(cfg, r, k - 1, d);
        StepKeepsArtifact(cfg, s, step, d);
      }
    }
  }

  /** So the recorded size is that of a stored artifact unless the last such upload broke off. */
  lemma ArtifactsAreStored(cfg: Config, r: Run, k: nat, d: DeploymentId)
    requires Legal(cfg, r) && k <= |r.steps| && d in r.states[k].deployments
    ensures var size, left := r.states[k].deployments[d].artifactSize, LastLeft(cfg, r, k, d);
            ArtifactStored(cfg, r.states[k], d) <==> size == 0 || (left.Some? && |left.value| == size)
  {
    ArtifactIsTheLastLeft(cfg, r, k, d);
  }

  /** Finalizing fails for want of an artifact exactly when nothing was stored whole, or an empty file last, or the last
      upload broke off and left nothing. */
  lemma MissingArtifactMeansNoUpload(cfg: Config, r: Run, k: nat, d: DeploymentId)
    requires Legal(cfg, r) && k <= |r.steps| && Enabled(r.states[k], StepFinalize(d))
    ensures var s := r.states[k];
            Finalize(cfg, s, d).0 == NoArtifact
            <==> && (s.deployments[d].status == Draft || s.deployments[d].status == Uploading)
                 && (s.deployments[d].artifactSize == 0 || LastLeft(cfg, r, k, d) == None)
  {
    var s := r.states[k];
    Reachable(cfg, r, k);
    assert DeploymentOk(s, d);
    ArtifactIsTheLastLeft(cfg, r, k, d);
    if ArtifactIn(HomeOf(cfg, s, d)) in s.files {
      ArtifactExact(s.files, HomeOf(cfg, s, d), cfg.parse, cfg.limits);
    }
  }

  /** A deployment for a new app, with a first artifact uploaded. */
  lemma FirstUpload(cfg: Config, a: AppId, row: App, d: DeploymentId, data: Bytes) returns (r: Run)
    requires PlainId(a) && PlainId(d) && cfg.maxDeployments >= 1 && 0 < |data| <= cfg.maxUpload
    ensures Legal(cfg, r)
    ensures var s := Last(r);
            && s.deployments == map[d := Deployment(a, Uploading, |data|, None)]
            && s.apps == map[a := row.(current := None)] && s.now == 0 && s.cache == map[]
            && s.files == map[ArtifactIn(Home(cfg.keyPrefix, a, d)) := data]
  {
    r := GoOn(cfg, Run([], [Init()]), StepCreateApp(a, row));
    assert DeploymentsOf(Last(r), a) == {};
    r := GoOn(cfg, r, StepCreateDeployment(a, d, true, true));
    r := GoOn(cfg, r, StepUpload(d, None, data, Complete));
  }

  // ---------- an upload that breaks off ----------

  /** A second upload that breaks off: the row still has the size of the first one, whose artifact is gone. */
  lemma SizeWithoutArtifact(cfg: Config, a: AppId, row: App, d: DeploymentId, data: Bytes, again: Bytes,
                            left: Option<Bytes>) returns (r: Run)
    requires PlainId(a) && PlainId(d) && cfg.maxDeployments >= 1 && 0 < |data| <= cfg.maxUpload
    requires |again| <= cfg.maxUpload && (left.Some? ==> left.value <= again && |left.value| != |data|)
    ensures Legal(cfg, r)
    ensures var s, key := Last(r), ArtifactIn(Home(cfg.keyPrefix, a, d));
            && s.apps == map[a := row.(current := None)]
            && s.deployments == map[d := Deployment(a, Uploading, |data|, None)] && !ArtifactStored(cfg, s, d)
            && s.files == match left case Some(part) => map[key := part] case None => map[]
  {
    r := FirstUpload(cfg, a, row, d, data);
    assert HomeOf(cfg, Last(r), d) == Home(cfg.keyPrefix, a, d);
    Reachable(cfg, r, |r.steps|);
    UploadFits(cfg, Last(r), d);
    r := GoOn(cfg, r, StepUpload(d, None, again, BrokenOff(left)));
  }

  /** A part of an archive that is no archive any more then finalizes and goes live without a file. */
  lemma BrokenUploadGoesLive(cfg: Config, a: AppId, row: App, d: DeploymentId, data: Bytes, again: Bytes, part: Bytes)
    returns (r: Run)
    requires PlainId(a) && PlainId(d) && cfg.maxDeployments >= 1 && 0 < |data| <= cfg.maxUpload
    requires |again| <= cfg.maxUpload && part <= again && |part| != |data| && cfg.parse(part) == NoArchive
    ensures Legal(cfg, r)
    ensures var s := Last(r);
            && a in s.apps && s.apps[a].current == Some(d) && Closed(s, d)
            && s.deployments[d].artifactSize == |data| && !ArtifactStored(cfg, s, d) && TreeAt(cfg, s, d) == map[]
  {
    var home := Home(cfg.keyPrefix, a, d);
    ArtifactBeside(home);
    r := SizeWithoutArtifact(cfg, a, row, d, data, again, Some(part));
    var before := Last(r);
    assert HomeOf(cfg, before, d) == home && ArchiveEntries(before.files, home, cfg.parse) == [];
    r := GoOn(cfg, r, StepFinalize(d));
    Reachable(cfg, r, |r.steps| - 1);
    assert HomeOf(cfg, Last(r), d) == home;
    forall tail
      ensures tail !in TreeOf(Last(r).files, TreeIn(home))
    {
      TreeLookup(Last(r).files, TreeIn(home), tail);
    }
  }

  // ---------- a stray file ends up in a live tree ----------

  /** An archive whose first member has a blank name fails on the file limit and leaves a stray file. */
  lemma StrayFileLeft(cfg: Config, a: AppId, row: App, d: DeploymentId, bad: Bytes, first: Member, second: Member)
    returns (r: Run)
    requires PlainId(a) && PlainId(d) && cfg.maxDeployments >= 1 && cfg.limits == Limits(1, 10, 10)
    requires 0 < |bad| <= cfg.maxUpload && cfg.parse(bad) == Archive([first, second])
    requires first.isFile && first.name == "  " && first.size == |first.content| == 0 && !first.broken
    requires second.isFile && NormalizeRelativePath(second.name).Some?
    ensures Legal(cfg, r)
    ensures var s := Last(r);
            && a in s.apps && d in s.deployments && s.deployments[d].app == a && s.deployments[d].status == Failed
            && TreeIn(Home(cfg.keyPrefix, a, d)) in s.files
  {
    var home := Home(cfg.keyPrefix, a, d);
    ArtifactBeside(home);
    r := FirstUpload(cfg, a, row, d, bad);
    assert HomeOf(cfg, Last(r), d) == home;
    StrayFileStays(Last(r).files, home, cfg.parse, first, second);
    r := GoOn(cfg, r, StepFinalize(d));
  }

  /** A failed deployment takes a new artifact; nothing else in storage changes. */
  lemma UploadedAgain(cfg: Config, r: Run, d: DeploymentId, data: Bytes) returns (longer: Run)
    requires Legal(cfg, r) && d in Last(r).deployments && Last(r).deployments[d].status == Failed
    requires 0 < |data| <= cfg.maxUpload
    ensures Legal(cfg, longer) && d in Last(longer).deployments
    ensures var s, t := Last(r), Last(longer);
            && HomeOf(cfg, t, d) == HomeOf(cfg, s, d) && t.deployments[d].app == s.deployments[d].app
            && t.apps == s.apps
            && t.deployments[d].status == Uploading && t.deployments[d].artifactSize == |data|
            && t.files == s.files[ArtifactIn(HomeOf(cfg, s, d)) := data]
  {
    Reachable(cfg, r, |r.steps|);
    UploadFits(cfg, Last(r), d);
    longer := GoOn(cfg, r, StepUpload(d, None, data, Complete));
  }

  /** Then something that is no archive is uploaded, finalizes without a file to write, and the stray file is live. */
  lemma StrayFileGoesLive(cfg: Config, a: AppId, row: App, d: DeploymentId, bad: Bytes, noArchive: Bytes,
                          first: Member, second: Member) returns (r: Run)
    requires PlainId(a) && PlainId(d) && cfg.maxDeployments >= 1 && cfg.limits == Limits(1, 10, 10)
    requires 0 < |bad| <= cfg.maxUpload && 0 < |noArchive| <= cfg.maxUpload
    requires cfg.parse(bad) == Archive([first, second]) && cfg.parse(noArchive) == NoArchive
    requires first.isFile && first.name == "  " && first.size == |first.content| == 0 && !first.broken
    requires second.isFile && NormalizeRelativePath(second.name).Some?
    ensures Legal(cfg, r)
    ensures var s := Last(r);
            && a in s.apps && s.apps[a].current == Some(d) && d in s.deployments
            && ArtifactIn(HomeOf(cfg, s, d)) in s.files && ArchiveEntries(s.files, HomeOf(cfg, s, d), cfg.parse) == []
            && [] in TreeAt(cfg, s, d)
  {
    var home := Home(cfg.keyPrefix, a, d);
    ArtifactBeside(home);
    r := StrayFileLeft(cfg, a, row, d, bad, first, second);
    r := UploadedAgain(cfg, r, d, noArchive);
    r := GoOn(cfg, r, StepFinalize(d));
    assert HomeOf(cfg, Last(r), d) == home;
    TreeLookup(Last(r).files, TreeIn(home), []);
    assert TreeIn(home) + [] == TreeIn(home);
  }
}
