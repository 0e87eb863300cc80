/** Serving a request: which stored file answers it, and that a stored file is served as it was packed. */
module Serve {
  import opened Wrappers
  import opened Text
  import opened Paths
  import opened FileTree
  import opened StorageKeys
  import opened Extract
  import opened ArchiveMembers
  import opened Hosting
  import opened HostingRuns
  import opened HostingReplies
  import HostingService

  const INDEX := "index.html"
  const NOT_FOUND := "404.html"

  /** Where below the tree the storage looks for a name; None is the deployment's own directory. */
  function Sought(tail: Path): Option<Path> {
    if !Awkward(tail) then Some(tail)
    else if tail[|tail| - 1] == "." then Some(Parent(tail))
    else if |tail| > 1 then Some(Parent(Parent(tail)))
    else None
  }

  /** Opening a name in an extracted tree; a directory or a missing file is None. */
  function Open(content: Files, name: string): Option<Bytes> {
    var place := Sought(Tail(StripLeft(name, IsSlash)));
    if place.Some? && place.value in content then Some(content[place.value]) else None
  }

  /** What the storage itself finds under the name's key. */
  lemma OpenIsStorage(files: Files, tree: Path, name: string)
    requires tree != [] && Parent(tree) !in files
    ensures var p := Place(tree, Tail(StripLeft(name, IsSlash)));
            Open(TreeOf(files, tree), name) == if p in files then Some(files[p]) else None
  {
    var tail := Tail(StripLeft(name, IsSlash));
    PlaceBelow(tree, tail);
    if Sought(tail).Some? {
      TreeLookup(files, tree, Sought(tail).value);
    }
  }

  lemma PlaceBelow(tree: Path, tail: Path)
    requires tree != []
    ensures Place(tree, tail) == if Sought(tail).Some? then tree + Sought(tail).value else Parent(tree)
  {
    var p := tree + tail;
    if Awkward(tail) {
      assert Parent(p) == tree + Parent(tail);
      if |tail| > 1 {
        assert Parent(Parent(p)) == tree + Parent(Parent(tail));
      } else {
        assert Parent(p) == tree;
      }
    }
  }

  /** A whole directory listing is enough for the existence check of the index. */
  predicate IndexExists(content: Files) {
    exists q {:trigger q in content} :: q in content && [INDEX] <= q
  }

  predicate AssetExtension(ext: string) {
    ext in {"js", "mjs", "cjs", "css", "map", "json", "svg", "png", "jpg", "jpeg", "gif", "webp", "ico", "woff",
            "woff2", "ttf", "otf", "eot", "txt", "xml", "wasm", "mp4", "webm", "mp3", "wav"}
  }

  function Lower(s: string): string {
    seq(|s|, i requires 0 <= i < |s| => if 'A' <= s[i] <= 'Z' then s[i] - 'A' + 'a' else s[i])
  }

  /** Missing files of these kinds are not answered with a page. */
  predicate LooksLikeStaticAsset(rel: string) {
    var parts := Split(rel, '/');
    var name := Split(parts[|parts| - 1], '.');
    |name| > 1 && AssetExtension(Lower(name[|name| - 1]))
  }

  /** The names a request path may be answered with, in order. */
  function Candidates(rel: string, asset: bool): seq<string> {
    (if rel == "" || rel[|rel| - 1] == '/' then [rel + INDEX]
     else if asset then [rel]
     else [rel, StripRight(rel, IsSlash) + ['/'] + INDEX])
    + (if rel != "" && asset then [] else [NOT_FOUND, INDEX])
  }

  function FirstOpen(content: Files, names: seq<string>): Option<(string, Bytes)> {
    if names == [] then None
    else
      var bytes := Open(content, names[0]);
      if bytes.Some? then Some((names[0], bytes.value)) else FirstOpen(content, names[1..])
  }

  lemma CandidatesNamed(rel: string, asset: bool)
    ensures forall name | name in Candidates(rel, asset) :: name != ""
  {
  }

  /** Tries the candidates in order, each name once. */
  method PickFile(content: Files, path: string, unquote: string -> string) returns (file: Option<(string, Bytes)>)
    ensures var rel := ValidateServePath(path, unquote);
            file == if rel.Err? then None
                    else FirstOpen(content, Candidates(rel.value, LooksLikeStaticAsset(rel.value)))
  {
    var valid := ValidateServePath(path, unquote);
    if valid.Err? {
      return None;
    }
    var rel := valid.value;
    var asset := LooksLikeStaticAsset(rel);
    var candidates: seq<string> := [];
    if rel == "" || rel[|rel| - 1] == '/' {
      candidates := candidates + [rel + INDEX];
    } else {
      candidates := candidates + [rel];
      if !asset {
        candidates := candidates + [StripRight(rel, IsSlash) + ['/'] + INDEX];
      }
    }
    if !(rel != "" && asset) {
      candidates := candidates + [NOT_FOUND, INDEX];
    }
    assert candidates == Candidates(rel, asset);
    CandidatesNamed(rel, asset);
    file := TryInOrder(content, candidates);
  }

  lemma FirstOpenNext(content: Files, names: seq<string>, i: nat)
    requires i < |names|
    ensures var bytes := Open(content, names[i]);
            FirstOpen(content, names[i..])
            == if bytes.Some? then Some((names[i], bytes.value)) else FirstOpen(content, names[i + 1..])
  {
    assert names[i..][1..] == names[i + 1..];
  }

  method TryInOrder(content: Files, candidates: seq<string>) returns (file: Option<(string, Bytes)>)
    requires forall name | name in candidates :: name != ""
    ensures file == FirstOpen(content, candidates)
  {
    var seen: set<string> := {};
    ghost var spec := FirstOpen(content, candidates);
    assert candidates[0..] == candidates;
    for i := 0 to |candidates|
      invariant forall name :: name in seen ==> Open(content, name).None?
      invariant spec == FirstOpen(content, candidates[i..])
    {
      var candidate := candidates[i];
      FirstOpenNext(content, candidates, i);
      assert candidate in candidates;
      if candidate == "" || candidate in seen {
        continue;
      }
      seen := seen + {candidate};
      var handle := Open(content, candidate);
      if handle.Some? {
        return Some((candidate, handle.value));
      }
    }
    assert candidates[|candidates|..] == [];
    file := None;
  }

  datatype Page = NoSite | ExpiredSite | UnavailableSite | NotFound | File(name: string, bytes: Bytes)

  /** The answer once the app and its live deployment are known. */
  function Answer(content: Files, path: string, unquote: string -> string): Page {
    match ValidateServePath(path, unquote)
    case Err(_) => NotFound
    case Ok(rel) =>
      if rel != "" && LooksLikeStaticAsset(rel) then
        var bytes := Open(content, rel);
        if bytes.Some? then File(rel, bytes.value) else NotFound
      else if !IndexExists(content) then UnavailableSite
      else
        match FirstOpen(content, Candidates(rel, LooksLikeStaticAsset(rel)))
        case None => NotFound
        case Some((name, bytes)) => File(name, bytes)
  }

  /** The answer to a request for a slug, as a function of the looked-up app and the files. */
  function Respond(cfg: Config, s: State, app: Option<Snapshot>, path: string, unquote: string -> string): Page {
    if app.None? then NoSite
    else if Expired(app.value.app, s.now) then ExpiredSite
    else
      match Resolve(app.value)
      case None => UnavailableSite
      case Some(d) =>
        Answer(TreeOf(s.files, TreeIn(Home(cfg.keyPrefix, app.value.deployment.value.app, d))), path, unquote)
  }

  /** The view behind every hosted site. */
  method Get(service: HostingService.Service, slug: string, path: string, unquote: string -> string)
    returns (page: Page, ghost found: Option<AppId>)
    requires service.Valid()
    modifies service
    ensures service.Valid() && Finds(old(service.View()), slug, found) && service.Took(StepLoadApp(slug, found))
    ensures var s := old(service.View());
            page == Respond(service.cfg, s, LoadApp(service.cfg, s, slug, found).0, path, unquote)
  {
    var app: Option<Snapshot>;
    app, found := service.LoadApp(slug);
    if app.None? {
      return NoSite, found;
    }
    if Expired(app.value.app, service.now) {
      return ExpiredSite, found;
    }
    var deployment := Resolve(app.value);
    if deployment.None? {
      return UnavailableSite, found;
    }
    var tree := TreeIn(Home(service.cfg.keyPrefix, app.value.deployment.value.app, deployment.value));
    var content := TreeOf(service.disk.files, tree);
    var valid := ValidateServePath(path, unquote);
    if valid.Err? {
      return NotFound, found;
    }
    var rel := valid.value;
    if rel != "" && LooksLikeStaticAsset(rel) {
      var handle := Open(content, rel);
      if handle.None? {
        return NotFound, found;
      }
      return File(rel, handle.value), found;
    }
    if !IndexExists(content) {
      return UnavailableSite, found;
    }
    var file := PickFile(content, path, unquote);
    page := if file.None? then NotFound else File(file.value.0, file.value.1);
  }

  // ---------- what it means ----------

  /** The first candidate that can be opened, and nothing before it can. */
  lemma {:induction false} FirstOpenIsFirst(content: Files, names: seq<string>) returns (i: nat)
    ensures FirstOpen(content, names).None? ==> forall name | name in names :: Open(content, name).None?
    ensures FirstOpen(content, names).Some? ==>
              && i < |names| && Some(FirstOpen(content, names).value.1) == Open(content, names[i])
              && FirstOpen(content, names).value.0 == names[i]
              && forall j | 0 <= j < i :: Open(content, names[j]).None?
  {
    i := 0;
    if names != [] && Open(content, names[0]).None? {
      assert names == [names[0]] + names[1..];
      var k := FirstOpenIsFirst(content, names[1..]);
      i := k + 1;
    }
  }

  /** A served file is one of the files of the live deployment's own tree. */
  lemma ServedFromTree(content: Files, path: string, unquote: string -> string)
    requires Answer(content, path, unquote).File?
    ensures exists tail :: tail in content && content[tail] == Answer(content, path, unquote).bytes
  {
    var rel := ValidateServePath(path, unquote).value;
    if !(rel != "" && LooksLikeStaticAsset(rel)) {
      var i := FirstOpenIsFirst(content, Candidates(rel, LooksLikeStaticAsset(rel)));
    }
  }

  /** The storage is asked for a clean name itself, and under the place the extraction wrote it to. */
  lemma CleanNameOpens(content: Files, name: string)
    requires Clean(name) && !Awkward(Tail(name))
    ensures Open(content, name) == if Tail(name) in content then Some(content[Tail(name)]) else None
  {
    SplitSeparable(name, '/');
    JoinProper(Split(name, '/'));
  }

  /** A file stored under the name that a path reads as is the answer. */
  lemma NameAnswered(content: Files, name: string, path: string, unquote: string -> string)
    requires name != "" && ValidateServePath(path, unquote) == Ok(name)
    requires !Awkward(Tail(name)) && Tail(name) in content
    requires LooksLikeStaticAsset(name) || IndexExists(content)
    ensures Answer(content, path, unquote) == File(name, content[Tail(name)])
  {
    ServedPathsAreClean(path, unquote);
    CleanNameOpens(content, name);
    FirstCandidate(name, LooksLikeStaticAsset(name));
  }

  lemma FirstCandidate(name: string, asset: bool)
    requires Clean(name)
    ensures name != "" && Candidates(name, asset)[0] == name
  {
    SplitSeparable(name, '/');
    JoinProper(Split(name, '/'));
  }

  /** Extract, then serve: the last entry of a place is what a request gets whose path reads as a name that leads
      there. */
  lemma StoredThenServed(entries: seq<Entry>, i: nat, name: string, path: string, unquote: string -> string)
    requires i < |entries| && entries[i].tail == Tail(name) && !Awkward(Tail(name))
    requires forall j | i < j < |entries| :: entries[j].tail != entries[i].tail
    requires name != "" && ValidateServePath(path, unquote) == Ok(name)
    ensures var content := LastWins(entries);
            LooksLikeStaticAsset(name) || IndexExists(content) ==>
            Answer(content, path, unquote) == File(name, entries[i].content)
  {
    var content := LastWins(entries);
    LastEntryWins(entries, i);
    if LooksLikeStaticAsset(name) || IndexExists(content) {
      NameAnswered(content, name, path, unquote);
    }
  }

  // ---------- requests, through the lookup and its cache ----------

  /** The answer to a request that comes in at state s; found is what a database query for the slug answers. */
  ghost function Request(cfg: Config, s: State, slug: string, found: Option<AppId>, path: string,
                         unquote: string -> string)
    : Page
    requires Finds(s, slug, found)
  {
    Respond(cfg, s, LoadApp(cfg, s, slug, found).0, path, unquote)
  }

  lemma NoFilesNoPage(path: string, unquote: string -> string)
    ensures !Answer(map[], path, unquote).File?
  {
  }

  /** Nothing is stored for a deployment that is gone. */
  lemma GoneIsEmpty(cfg: Config, s: State, a: AppId, d: DeploymentId)
    requires Inv(cfg, s) && a !in s.apps
    ensures TreeOf(s.files, TreeIn(Home(cfg.keyPrefix, a, d))) == map[]
  {
    var home := Home(cfg.keyPrefix, a, d);
    forall p | p in s.files
      ensures !(TreeIn(home) <= p)
    {
      if TreeIn(home) <= p {
        var e := HousedBelow(cfg, s, p);
        BelowHome(home, p);
        assert DeploymentOk(s, e);
        HomesDisjoint(cfg.keyPrefix, a, d, s.deployments[e].app, e, p);
      }
    }
  }

  /**
   What any request gets. An app that exists is answered from the tree of the deployment the database names at that
   instant, unless the looked-up row, which may be one TTL old, says that it has expired. A deleted app that the cache
   still holds is answered, but with no file.
   */
  lemma RequestsAnswered(cfg: Config, r: Run, k: nat, slug: string, found: Option<AppId>, path: string,
                         unquote: string -> string)
    requires Legal(cfg, r) && k <= |r.steps| && Finds(r.states[k], slug, found)
    ensures var s, page := r.states[k], Request(cfg, r.states[k], slug, found, path, unquote);
            match LoadApp(cfg, s, slug, found).0
            case None => page == NoSite
            case Some(loaded) =>
              if Expired(loaded.app, s.now) then page == ExpiredSite
              else if loaded.id !in s.apps then page != NoSite && !page.File?
              else
                match s.apps[loaded.id].current
                case None => page == UnavailableSite
                case Some(d) => d in s.deployments && page == Answer(TreeAt(cfg, s, d), path, unquote)
  {
    var s, loaded := r.states[k], LoadApp(cfg, r.states[k], slug, found).0;
    if loaded.Some? && !Expired(loaded.value.app, s.now) {
      if loaded.value.id in s.apps {
        LivingAppAnswers(cfg, r, k, slug, found, path, unquote);
      } else {
        DeletedAppAnswers(cfg, r, k, slug, found, path, unquote);
      }
    }
  }

  lemma LivingAppAnswers(cfg: Config, r: Run, k: nat, slug: string, found: Option<AppId>, path: string,
                         unquote: string -> string)
    requires Legal(cfg, r) && k <= |r.steps| && Finds(r.states[k], slug, found)
    requires var s, loaded := r.states[k], LoadApp(cfg, r.states[k], slug, found).0;
             loaded.Some? && !Expired(loaded.value.app, s.now) && loaded.value.id in s.apps
    ensures var s, loaded := r.states[k], LoadApp(cfg, r.states[k], slug, found).0.value;
            match s.apps[loaded.id].current
            case None => Respond(cfg, s, Some(loaded), path, unquote) == UnavailableSite
            case Some(d) =>
              && d in s.deployments
              && Respond(cfg, s, Some(loaded), path, unquote) == Answer(TreeAt(cfg, s, d), path, unquote)
  {
    Reachable(cfg, r, k);
    LoadedAgrees(cfg, r.states[k], slug, found);
    assert AppOk(r.states[k], LoadApp(cfg, r.states[k], slug, found).0.value.id);
  }

  lemma DeletedAppAnswers(cfg: Config, r: Run, k: nat, slug: string, found: Option<AppId>, path: string,
                          unquote: string -> string)
    requires Legal(cfg, r) && k <= |r.steps| && Finds(r.states[k], slug, found)
    requires var s, loaded := r.states[k], LoadApp(cfg, r.states[k], slug, found).0;
             loaded.Some? && !Expired(loaded.value.app, s.now) && loaded.value.id !in s.apps
    ensures var page := Respond(cfg, r.states[k], LoadApp(cfg, r.states[k], slug, found).0, path, unquote);
            page != NoSite && !page.File?
  {
    Reachable(cfg, r, k);
    var s, loaded := r.states[k], LoadApp(cfg, r.states[k], slug, found).0.value;
    if Resolve(loaded).Some? {
      DeletedDeployment(cfg, r, k, slug, found);
      GoneIsEmpty(cfg, s, loaded.id, Resolve(loaded).value);
      NoFilesNoPage(path, unquote);
    }
  }

  lemma LoadedAgrees(cfg: Config, s: State, slug: string, found: Option<AppId>)
    requires RowsInv(s) && CacheAgrees(s) && Finds(s, slug, found) && LoadApp(cfg, s, slug, found).0.Some?
    ensures Agrees(s, slug, LoadApp(cfg, s, slug, found).0.value)
  {
    if found.Some? {
      assert AppOk(s, found.value);
    }
  }

  /** The deployment in a looked-up row belongs to the looked-up app. */
  lemma DeletedDeployment(cfg: Config, r: Run, k: nat, slug: string, found: Option<AppId>)
    requires Legal(cfg, r) && k <= |r.steps| && Finds(r.states[k], slug, found)
    requires LoadApp(cfg, r.states[k], slug, found).0.Some?
    ensures var loaded := LoadApp(cfg, r.states[k], slug, found).0.value;
            loaded.deployment.Some? ==> loaded.deployment.value.app == loaded.id
  {
    var i := LookupsAreRecent(cfg, r, k, slug, found);
    Reachable(cfg, r, i);
    assert AppOk(r.states[i], LoadApp(cfg, r.states[k], slug, found).0.value.id);
  }

  /** The looked-up app of a request exists, has d as its current deployment, and has not expired as far as looked
      up. */
  ghost predicate Serves(cfg: Config, s: State, slug: string, found: Option<AppId>, d: DeploymentId)
    requires Finds(s, slug, found)
  {
    var loaded := LoadApp(cfg, s, slug, found).0;
    && loaded.Some? && loaded.value.id in s.apps && s.apps[loaded.value.id].current == Some(d)
    && !Expired(loaded.value.app, s.now)
  }

  /** Once live, a deployment is served the same byte for byte whenever it is current: requests for any path at any two
      such moments get the same answer, cached lookups included. */
  lemma RollbackServesTheSame
    (cfg: Config, r: Run, i: nat, j: nat, slug: string, before: Option<AppId>, after: Option<AppId>, d: DeploymentId,
     path: string, unquote: string -> string)
    requires Legal(cfg, r) && i <= j <= |r.steps| && forall k | i <= k <= j :: d in r.states[k].deployments
    requires Finds(r.states[i], slug, before) && Serves(cfg, r.states[i], slug, before, d)
    requires Finds(r.states[j], slug, after) && Serves(cfg, r.states[j], slug, after, d)
    ensures Request(cfg, r.states[j], slug, after, path, unquote)
            == Request(cfg, r.states[i], slug, before, path, unquote)
  {
    RequestsAnswered(cfg, r, i, slug, before, path, unquote);
    RequestsAnswered(cfg, r, j, slug, after, path, unquote);
    CurrentIsClosed(cfg, r, i, slug, before, d);
    LiveFilesNeverChange(cfg, r, i, j, d);
  }

  lemma CurrentIsClosed(cfg: Config, r: Run, k: nat, slug: string, found: Option<AppId>, d: DeploymentId)
    requires Legal(cfg, r) && k <= |r.steps| && Finds(r.states[k], slug, found)
             && Serves(cfg, r.states[k], slug, found, d)
    ensures HostingRuns.Closed(r.states[k], d)
  {
    Reachable(cfg, r, k);
    assert AppOk(r.states[k], LoadApp(cfg, r.states[k], slug, found).0.value.id);
  }

  lemma SuccessIsSmooth(files: Files, home: Path, parse: Bytes -> Parsed, limits: Limits)
    requires Layered(files) && ArtifactIn(home) in files && ExtractArtifact(files, home, parse, limits).0.Extracted?
    ensures forall e | e in ArchiveEntries(files, home, parse) :: !Awkward(e.tail)
  {
    ArtifactExact(files, home, parse, limits);
    var entries := ArchiveEntries(files, home, parse);
    forall i | 0 <= i < |entries|
      ensures !Awkward(entries[i].tail)
    {
      assert SmoothUpTo(files, TreeIn(home), entries, |entries|);
    }
  }

  /** The stored artifact of a deployment is an archive of these members. */
  predicate Uploaded(cfg: Config, s: State, d: DeploymentId, members: seq<Member>)
    requires d in s.deployments
  {
    var key := ArtifactIn(HomeOf(cfg, s, d));
    key in s.files && s.files[key] != [] && cfg.parse(s.files[key]) == Archive(members)
  }

  /** A finalized archive with a file at its tree leaves the tree of its members. */
  lemma JustFinalized(cfg: Config, s: State, d: DeploymentId, members: seq<Member>)
    requires Inv(cfg, s) && Enabled(s, StepFinalize(d)) && Finalize(cfg, s, d).0 == Done
    requires Uploaded(cfg, s, d, members) && Entries(members) != []
    ensures HoldsPacked(cfg, Finalize(cfg, s, d).1, d, members)
  {
    FinalizedState(cfg, s, d);
    FinalizeServesArchive(cfg, s, d);
    SuccessIsSmooth(s.files, HomeOf(cfg, s, d), cfg.parse, cfg.limits);
  }

  /** The deployment is live, and its tree holds the last contents of these members. */
  ghost predicate HoldsPacked(cfg: Config, s: State, d: DeploymentId, members: seq<Member>) {
    && HostingRuns.Closed(s, d) && TreeAt(cfg, s, d) == LastWins(Entries(members))
    && forall e | e in Entries(members) :: !Awkward(e.tail)
  }

  /** A finalize succeeds exactly when it takes the deployment live. */
  lemma DoneMeansLive(cfg: Config, s: State, d: DeploymentId)
    requires Enabled(s, StepFinalize(d))
    ensures Finalize(cfg, s, d).0 == Done <==>
            !HostingRuns.Closed(s, d) && HostingRuns.Closed(Finalize(cfg, s, d).1, d)
  {
    var outcome, files := FinalizeIs(cfg, s, d);
  }

  lemma StepFinalizes(cfg: Config, r: Run, i: nat, d: DeploymentId, members: seq<Member>)
    requires Legal(cfg, r) && i < |r.steps| && r.steps[i] == StepFinalize(d) && d in r.states[i].deployments
    requires !HostingRuns.Closed(r.states[i], d) && HostingRuns.Closed(r.states[i + 1], d)
    requires Uploaded(cfg, r.states[i], d, members) && Entries(members) != []
    ensures HoldsPacked(cfg, r.states[i + 1], d, members)
  {
    Reachable(cfg, r, i);
    FinalizedNext(cfg, r, i, d);
    DoneMeansLive(cfg, r.states[i], d);
    JustFinalized(cfg, r.states[i], d, members);
  }

  /** Entry k is the last one of this place. */
  predicate StoredLast(entries: seq<Entry>, k: nat, tail: Path) {
    && k < |entries| && entries[k].tail == tail
    && forall j | k < j < |entries| :: entries[j].tail != tail
  }

  /** The archive has an index page, or something in a directory of that name. */
  ghost predicate HasIndex(members: seq<Member>) {
    exists tail {:trigger ArchiveMembers.Written(members, tail)} ::
      ArchiveMembers.Written(members, tail) && [INDEX] <= tail
  }

  lemma IndexOfMembers(members: seq<Member>)
    ensures IndexExists(LastWins(Entries(members))) <==> HasIndex(members)
  {
    if q :| q in LastWins(Entries(members)) && [INDEX] <= q {
      TreeOfMembers(members, q);
    }
    if tail :| ArchiveMembers.Written(members, tail) && [INDEX] <= tail {
      TreeOfMembers(members, tail);
      assert tail in LastWins(Entries(members));
    }
  }

  /** The deployment exists from step i to step j. */
  predicate Stays(r: Run, i: nat, j: nat, d: DeploymentId) {
    j < |r.states| && forall k | i <= k <= j :: d in r.states[k].deployments
  }

  ghost predicate ServesNow(cfg: Config, s: State, slug: string, found: Option<AppId>, d: DeploymentId) {
    Finds(s, slug, found) && Serves(cfg, s, slug, found, d)
  }

  lemma StillHolds(cfg: Config, r: Run, i: nat, j: nat, d: DeploymentId, members: seq<Member>)
    requires Legal(cfg, r) && i < j <= |r.steps| && Stays(r, i, j, d)
    requires HoldsPacked(cfg, r.states[i + 1], d, members)
    ensures HoldsPacked(cfg, r.states[j], d, members)
  {
    LiveFilesNeverChange(cfg, r, i + 1, j, d);
  }

  /** A deployment that holds what was packed answers requests for it whenever it serves. */
  lemma PackedIsServed
    (cfg: Config, r: Run, j: nat, d: DeploymentId, members: seq<Member>, slug: string, found: Option<AppId>,
     k: nat, name: string, path: string, unquote: string -> string)
    requires Legal(cfg, r) && j <= |r.steps| && HoldsPacked(cfg, r.states[j], d, members)
    requires ServesNow(cfg, r.states[j], slug, found, d)
    requires StoredLast(Entries(members), k, Tail(name)) && name != "" && ValidateServePath(path, unquote) == Ok(name)
    requires LooksLikeStaticAsset(name) || IndexExists(LastWins(Entries(members)))
    ensures Request(cfg, r.states[j], slug, found, path, unquote) == File(name, Entries(members)[k].content)
  {
    StoredThenServed(Entries(members), k, name, path, unquote);
    RequestsAnswered(cfg, r, j, slug, found, path, unquote);
  }

  /**
   The whole way: an archive is uploaded and finalized, and at any later moment at which the deployment serves, a
   request whose path reads as a name gets the content of the archive's last member of that name.
   */
  lemma FinalizedThenServed
    (cfg: Config, r: Run, i: nat, j: nat, d: DeploymentId, members: seq<Member>, slug: string, found: Option<AppId>,
     n: nat, name: string, path: string, unquote: string -> string)
    requires Legal(cfg, r) && i < j <= |r.steps| && r.steps[i] == StepFinalize(d)
    requires Stays(r, i, j, d)
    requires !HostingRuns.Closed(r.states[i], d) && HostingRuns.Closed(r.states[i + 1], d)
    requires Uploaded(cfg, r.states[i], d, members)
    requires ServesNow(cfg, r.states[j], slug, found, d)
    requires LastMember(members, n, Tail(name)) && name != "" && ValidateServePath(path, unquote) == Ok(name)
    requires LooksLikeStaticAsset(name) || HasIndex(members)
    ensures Request(cfg, r.states[j], slug, found, path, unquote) == File(name, members[n].content)
  {
    var k := LastMemberIsLastEntry(members, n, Tail(name));
    IndexOfMembers(members);
    StepFinalizes(cfg, r, i, d, members);
    StillHolds(cfg, r, i, j, d, members);
    PackedIsServed(cfg, r, j, d, members, slug, found, k, name, path, unquote);
  }

  /** Right after a finalize the lookup is the database's, so the deployment serves unless its app has expired. */
  lemma ServesAfterFinalize(cfg: Config, s: State, d: DeploymentId, found: Option<AppId>)
    requires Inv(cfg, s) && Enabled(s, StepFinalize(d)) && Finalize(cfg, s, d).0 == Done
    requires Finds(Finalize(cfg, s, d).1, s.apps[s.deployments[d].app].slug, found)
    ensures var t, a := Finalize(cfg, s, d).1, s.deployments[d].app;
            a in t.apps && (Serves(cfg, t, s.apps[a].slug, found, d) <==> !Expired(t.apps[a], t.now))
  {
    FinalizedState(cfg, s, d);
    FinalizeKeepsRows(cfg, s, d);
  }

  /** And right after a rollback: the deployment that is back serves unless its app has expired. */
  lemma ServesAfterRollback(cfg: Config, r: Run, k: nat, d: DeploymentId, found: Option<AppId>)
    requires Legal(cfg, r) && k <= |r.steps| && HostingRuns.Closed(r.states[k], d)
    requires var s := r.states[k];
             && s.deployments[d].app in s.apps && s.deployments[d].artifactSize > 0
             && Finds(Rollback(cfg, s, d).1, s.apps[s.deployments[d].app].slug, found)
    ensures var s, t, a := r.states[k], Rollback(cfg, r.states[k], d).1, r.states[k].deployments[d].app;
            a in t.apps && (Serves(cfg, t, s.apps[a].slug, found, d) <==> !Expired(t.apps[a], t.now))
  {
    Reachable(cfg, r, k);
    RollbackReplies(cfg, r, k, d);
    var t, a := Rollback(cfg, r.states[k], d).1, r.states[k].deployments[d].app;
    assert r.states[k].apps[a].slug !in t.cache;
    assert found == Some(a);
  }

  // ---------- a stray file at the tree's own place ----------

  lemma AssetEndsPlain(ext: string)
    requires AssetExtension(Lower(ext))
    ensures ext != "" && !IsSpace(ext[|ext| - 1])
  {
    var low := Lower(ext);
    assert low != "" && !IsSpace(low[|low| - 1]);
  }

  /** The last part of a name keeps its end, and so does the name. */
  lemma {:induction false} LastPartEnds(s: string, c: char)
    ensures var parts := Split(s, c);
            parts[|parts| - 1] != "" ==> s != "" && s[|s| - 1] == parts[|parts| - 1][|parts[|parts| - 1]| - 1]
    ensures |Split(s, c)| == 1 ==> Split(s, c)[0] == s
  {
    if s != "" {
      LastPartEnds(s[1..], c);
    }
  }

  /** An asset's name leads below the tree, never to the tree itself. */
  lemma AssetIsBelow(rel: string)
    requires Clean(rel) && LooksLikeStaticAsset(rel)
    ensures Tail(StripLeft(rel, IsSlash)) != [] && !Awkward(Tail(StripLeft(rel, IsSlash)))
  {
    var parts := Split(rel, '/');
    var name := parts[|parts| - 1];
    var dotted := Split(name, '.');
    AssetEndsPlain(dotted[|dotted| - 1]);
    LastPartEnds(name, '.');
    LastPartEnds(rel, '/');
    StripLast(rel, IsSpace);
    SplitSeparable(rel, '/');
    JoinProper(parts);
    StripLast(rel, IsSlash);
    assert name in parts;
  }

  /** A tree that is nothing but a plain file answers no path with a file. */
  lemma StrayFileAnswersNothing(content: Files, path: string, unquote: string -> string)
    requires forall t | t in content :: t == []
    ensures !Answer(content, path, unquote).File?
  {
    if ValidateServePath(path, unquote).Ok? {
      var rel := ValidateServePath(path, unquote).value;
      ServedPathsAreClean(path, unquote);
      if rel != "" && LooksLikeStaticAsset(rel) {
        AssetIsBelow(rel);
      }
    }
  }

  /** So a deployment with a plain file at its tree's place can be current and serve, and no request gets a file. */
  lemma StrayFileIsNotServed(cfg: Config, r: Run, k: nat, slug: string, found: Option<AppId>, d: DeploymentId,
                             path: string, unquote: string -> string)
    requires Legal(cfg, r) && k <= |r.steps| && Finds(r.states[k], slug, found)
    requires Serves(cfg, r.states[k], slug, found, d) && d in r.states[k].deployments
    requires TreeIn(HomeOf(cfg, r.states[k], d)) in r.states[k].files
    ensures !Request(cfg, r.states[k], slug, found, path, unquote).File?
  {
    Reachable(cfg, r, k);
    RequestsAnswered(cfg, r, k, slug, found, path, unquote);
    OnlyTheFile(r.states[k].files, TreeIn(HomeOf(cfg, r.states[k], d)));
    StrayFileAnswersNothing(TreeAt(cfg, r.states[k], d), path, unquote);
  }

  lemma OnlyTheFile(files: Files, tree: Path)
    requires Layered(files) && tree in files
    ensures forall t | t in TreeOf(files, tree) :: t == []
  {
    forall t | t in TreeOf(files, tree)
      ensures t == []
    {
      TreeLookup(files, tree, t);
      assert t != [] ==> tree < tree + t;
    }
  }

  // ---------- a renewal that requests do not see ----------

  /** A site that has not expired is answered as expired exactly while the cache holds a row from before its renewal. */
  lemma ExpiredInCache(cfg: Config, s: State, slug: string, a: AppId, path: string, unquote: string -> string)
    requires Finds(s, slug, Some(a)) && !Expired(s.apps[a], s.now)
    ensures Request(cfg, s, slug, Some(a), path, unquote) == ExpiredSite
            <==> && cfg.cacheTtl > 0 && slug in s.cache && s.now < s.cache[slug].expires
                 && Expired(s.cache[slug].snapshot.app, s.now)
  {
    if LoadApp(cfg, s, slug, Some(a)).0 == Some(Stored(s, a)) && Resolve(Stored(s, a)).Some? {
      AnswerIsNotExpired(TreeOf(s.files, TreeIn(Home(cfg.keyPrefix, Stored(s, a).deployment.value.app,
                                                     Resolve(Stored(s, a)).value))), path, unquote);
    }
  }

  lemma AnswerIsNotExpired(content: Files, path: string, unquote: string -> string)
    ensures Answer(content, path, unquote) != ExpiredSite
  {
  }

  lemma LivePreview(cfg: Config, a: AppId, row: App, d: DeploymentId, noArchive: Bytes) returns (r: Run)
    requires PlainId(a) && PlainId(d) && cfg.maxDeployments >= 1 && 0 < |noArchive| <= cfg.maxUpload
    requires cfg.parse(noArchive) == NoArchive && row.createdBy.Some?
    ensures Legal(cfg, r)
    ensures var s := Last(r);
            && s.apps == map[a := row.(current := Some(d), expiresAt := Some(PreviewExpiresAt(cfg, 0)))]
            && d in s.deployments && s.deployments[d].status == Active && s.deployments[d].app == a
            && s.now == 0 && s.cache == map[]
  {
    r := FirstUpload(cfg, a, row, d, noArchive);
    assert HomeOf(cfg, Last(r), d) == Home(cfg.keyPrefix, a, d);
    r := GoOn(cfg, r, StepFinalize(d));
  }

  /** It happens: a preview is served just before it expires and then renewed, and still answered as expired. */
  lemma RenewalIsMissed(cfg: Config, a: AppId, row: App, d: DeploymentId, noArchive: Bytes, path: string,
                        unquote: string -> string) returns (r: Run)
    requires PlainId(a) && PlainId(d) && cfg.maxDeployments >= 1 && 0 < |noArchive| <= cfg.maxUpload
    requires cfg.parse(noArchive) == NoArchive && row.createdBy.Some? && cfg.cacheTtl > 1
    ensures Legal(cfg, r) && Finds(Last(r), row.slug, Some(a))
    ensures Last(r).apps[a].current == Some(d) && !Expired(Last(r).apps[a], Last(r).now)
    ensures Request(cfg, Last(r), row.slug, Some(a), path, unquote) == ExpiredSite
  {
    r := LivePreview(cfg, a, row, d, noArchive);
    var end := PreviewExpiresAt(cfg, 0);
    r := GoOn(cfg, r, StepTick(end - 1));
    r := GoOn(cfg, r, StepLoadApp(row.slug, Some(a)));
    r := GoOn(cfg, r, StepRenewExpiry(a));
    r := GoOn(cfg, r, StepTick(end));
  }
}
