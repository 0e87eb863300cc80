/** Storage keys: how deployments and file names become paths below the storage root. */
module StorageKeys {
  import opened Text
  import opened Paths
  import opened FileTree

  function BuildStorageKey(keyPrefix: string, relative: string): string {
    var prefix := StripSlashes(Strip(keyPrefix, IsSpace));
    var rel := StripSlashes(Strip(relative, IsSpace));
    if prefix != "" then prefix + ['/'] + rel else rel
  }

  const DEPLOYMENTS := "deployments"
  const EXTRACTED := "extracted"
  const ARTIFACT := "artifact.tar.gz"

  /** The relative part of a deployment's keys. */
  function Relative(app: string, folder: string, deployment: string, last: string): string {
    app + ['/'] + (folder + ['/'] + (deployment + ['/'] + last))
  }

  function StoragePrefix(app: string, deployment: string): string {
    Relative(app, DEPLOYMENTS, deployment, "")
  }

  function ArtifactKey(keyPrefix: string, storagePrefix: string): string {
    BuildStorageKey(keyPrefix, storagePrefix + ARTIFACT)
  }

  function ExtractedPrefix(storagePrefix: string): string {
    StripRight(storagePrefix, IsSlash) + ['/'] + EXTRACTED + ['/']
  }

  /** The key a member is written to. */
  function MemberKey(keyPrefix: string, storagePrefix: string, name: string): string {
    BuildStorageKey(keyPrefix, ExtractedPrefix(storagePrefix) + name)
  }

  /** The key a served file is opened under. */
  function ExtractedFileKey(keyPrefix: string, storagePrefix: string, name: string): string {
    BuildStorageKey(keyPrefix, ExtractedPrefix(storagePrefix) + StripLeft(name, IsSlash))
  }

  /** The text of an id, such as a UUID: some characters, none of them a slash or a blank. */
  predicate PlainId(id: string) {
    id != "" && forall c | c in id :: c != '/' && !IsSpace(c)
  }

  function Root(keyPrefix: string): Path {
    var prefix := StripSlashes(Strip(keyPrefix, IsSpace));
    if prefix != "" then Split(prefix, '/') else []
  }

  /** The directory of a deployment, its artifact and its extracted tree. */
  function Home(keyPrefix: string, app: string, deployment: string): Path {
    Root(keyPrefix) + [app, DEPLOYMENTS, deployment]
  }

  function ArtifactPath(keyPrefix: string, app: string, deployment: string): Path {
    Home(keyPrefix, app, deployment) + [ARTIFACT]
  }

  function TreePath(keyPrefix: string, app: string, deployment: string): Path {
    Home(keyPrefix, app, deployment) + [EXTRACTED]
  }

  /** Where a clean name ends up inside the extracted tree: blanks at the end of a key are lost. */
  function Tail(name: string): Path {
    var kept := StripRight(name, IsSpace);
    if kept == "" then [] else Split(StripRight(kept, IsSlash), '/')
  }

  lemma {:induction false} StripRightConcat(a: string, b: string, p: char -> bool)
    ensures StripRight(a + b, p) == if StripRight(b, p) == "" then StripRight(a, p) else a + StripRight(b, p)
  {
    if b == "" {
      assert a + b == a;
    } else if p(b[|b| - 1]) {
      var whole := a + b;
      assert whole[|whole| - 1] == b[|b| - 1];
      assert whole[..|whole| - 1] == a + b[..|b| - 1];
      StripRightConcat(a, b[..|b| - 1], p);
    } else {
      assert (a + b)[|a + b| - 1] == b[|b| - 1];
    }
  }

  lemma {:induction false} StripLast(s: string, p: char -> bool)
    requires s != "" && !p(s[|s| - 1])
    ensures StripRight(s, p) == s
  {
  }

  lemma {:induction false} StripRightHead(s: string)
    requires s != "" && s[0] != '/'
    ensures StripRight(s, IsSlash) != "" && StripRight(s, IsSlash)[0] == s[0]
  {
    if IsSlash(s[|s| - 1]) {
      StripRightHead(s[..|s| - 1]);
    }
  }

  lemma Literals()
    ensures PlainId(DEPLOYMENTS) && PlainId(EXTRACTED) && PlainId(ARTIFACT) && EXTRACTED != ARTIFACT
  {
  }

  lemma PlainEnds(id: string)
    requires PlainId(id)
    ensures id[0] != '/' && !IsSpace(id[0]) && id[|id| - 1] != '/' && !IsSpace(id[|id| - 1]) && '/' !in id
  {
    assert id[0] in id && id[|id| - 1] in id;
  }

  lemma SplitRelative(app: string, folder: string, deployment: string, last: string)
    requires PlainId(app) && PlainId(folder) && PlainId(deployment)
    ensures Split(Relative(app, folder, deployment, last), '/') == [app, folder, deployment] + Split(last, '/')
  {
    SplitFirst(app, folder + ['/'] + (deployment + ['/'] + last), '/');
    SplitFirst(folder, deployment + ['/'] + last, '/');
    SplitFirst(deployment, last, '/');
  }

  lemma RelativeHead(app: string, folder: string, deployment: string, last: string)
    requires PlainId(app) && PlainId(deployment)
    ensures Relative(app, folder, deployment, last) == Relative(app, folder, deployment, "") + last
    ensures Relative(app, folder, deployment, last)[0] == app[0]
    ensures StripRight(Relative(app, folder, deployment, ""), IsSlash) == app + ['/'] + (folder + ['/'] + deployment)
  {
    var bare := app + ['/'] + (folder + ['/'] + deployment);
    assert Relative(app, folder, deployment, "") == bare + ['/'];
    assert (bare + ['/'])[..|bare|] == bare;
    PlainEnds(deployment);
    assert bare[|bare| - 1] == deployment[|deployment| - 1];
    StripLast(bare, IsSlash);
  }

  /** Stripping a relative key touches only its last part. */
  lemma StripRelative(app: string, folder: string, deployment: string, last: string)
    requires PlainId(app) && PlainId(deployment)
    requires last != "" && last[0] != '/' && StripRight(last, IsSpace) != ""
    ensures StripRight(StripRight(last, IsSpace), IsSlash) != ""
    ensures StripSlashes(Strip(Relative(app, folder, deployment, last), IsSpace))
            == Relative(app, folder, deployment, StripRight(StripRight(last, IsSpace), IsSlash))
  {
    var head, kept := Relative(app, folder, deployment, ""), StripRight(last, IsSpace);
    PlainEnds(app);
    RelativeHead(app, folder, deployment, last);
    RelativeHead(app, folder, deployment, kept);
    StripRightConcat(head, last, IsSpace);
    StripRightConcat(head, kept, IsSlash);
    StripRightHead(kept);
    RelativeHead(app, folder, deployment, StripRight(kept, IsSlash));
  }

  lemma BelowRoot(keyPrefix: string, relative: string)
    ensures Split(BuildStorageKey(keyPrefix, relative), '/')
            == Root(keyPrefix) + Split(StripSlashes(Strip(relative, IsSpace)), '/')
  {
    var prefix := StripSlashes(Strip(keyPrefix, IsSpace));
    if prefix != "" {
      SplitConcat(prefix, StripSlashes(Strip(relative, IsSpace)), '/');
    }
  }

  lemma PathsGlue(a: Path, b: Path, c: Path)
    ensures a + (b + c) == a + b + c
  {
  }

  lemma KeyOf(keyPrefix: string, app: string, folder: string, deployment: string, last: string)
    requires PlainId(app) && PlainId(folder) && PlainId(deployment)
    requires last != "" && last[0] != '/' && StripRight(last, IsSpace) != ""
    ensures Split(BuildStorageKey(keyPrefix, Relative(app, folder, deployment, last)), '/')
            == Root(keyPrefix) + [app, folder, deployment] + Split(StripRight(StripRight(last, IsSpace), IsSlash), '/')
  {
    var end := StripRight(StripRight(last, IsSpace), IsSlash);
    StripRelative(app, folder, deployment, last);
    SplitRelative(app, folder, deployment, end);
    BelowRoot(keyPrefix, Relative(app, folder, deployment, last));
    PathsGlue(Root(keyPrefix), [app, folder, deployment], Split(end, '/'));
  }

  /** The artifact lies in the deployment's directory. */
  lemma ArtifactKeyPath(keyPrefix: string, app: string, deployment: string)
    requires PlainId(app) && PlainId(deployment)
    ensures Split(ArtifactKey(keyPrefix, StoragePrefix(app, deployment)), '/')
            == ArtifactPath(keyPrefix, app, deployment)
  {
    Literals();
    PlainEnds(ARTIFACT);
    RelativeHead(app, DEPLOYMENTS, deployment, ARTIFACT);
    StripLast(ARTIFACT, IsSpace);
    StripLast(ARTIFACT, IsSlash);
    KeyOf(keyPrefix, app, DEPLOYMENTS, deployment, ARTIFACT);
    SplitWord(ARTIFACT, '/');
  }

  /** A name below a folder, stripped: what is left of the folder and of the name. */
  lemma StripBelow(folder: string, name: string)
    requires PlainId(folder) && name != "" && name[0] != '/'
    ensures StripRight(folder + ['/'] + name, IsSpace) != ""
    ensures Split(StripRight(StripRight(folder + ['/'] + name, IsSpace), IsSlash), '/') == [folder] + Tail(name)
  {
    var head, kept := folder + ['/'], StripRight(name, IsSpace);
    PlainEnds(folder);
    SplitWord(folder, '/');
    StripRightConcat(head, name, IsSpace);
    StripLast(head, IsSpace);
    if kept == "" {
      assert head[..|folder|] == folder;
      StripLast(folder, IsSlash);
    } else {
      StripRightConcat(head, kept, IsSlash);
      StripRightHead(kept);
      SplitConcat(folder, StripRight(kept, IsSlash), '/');
    }
  }

  /** Members are written, and files opened, at the tail of their name inside the extracted tree. */
  lemma ExtractedKeyPath(keyPrefix: string, app: string, deployment: string, name: string)
    requires PlainId(app) && PlainId(deployment) && Clean(name)
    ensures Split(MemberKey(keyPrefix, StoragePrefix(app, deployment), name), '/')
            == TreePath(keyPrefix, app, deployment) + Tail(name)
    ensures ExtractedFileKey(keyPrefix, StoragePrefix(app, deployment), name)
            == MemberKey(keyPrefix, StoragePrefix(app, deployment), name)
  {
    Literals();
    PlainEnds(EXTRACTED);
    SplitSeparable(name, '/');
    JoinProper(Split(name, '/'));
    var last := EXTRACTED + ['/'] + name;
    RelativeHead(app, DEPLOYMENTS, deployment, last);
    assert ExtractedPrefix(StoragePrefix(app, deployment)) + name == Relative(app, DEPLOYMENTS, deployment, last);
    assert last[0] == EXTRACTED[0];
    StripBelow(EXTRACTED, name);
    KeyOf(keyPrefix, app, DEPLOYMENTS, deployment, last);
    PathsGlue(Root(keyPrefix) + [app, DEPLOYMENTS, deployment], [EXTRACTED], Tail(name));
  }

  /** Nothing lies in the directories of two deployments, and no artifact lies in an extracted tree. */
  lemma HomesDisjoint(keyPrefix: string, app: string, deployment: string, app2: string, deployment2: string, p: Path)
    requires Home(keyPrefix, app, deployment) <= p && Home(keyPrefix, app2, deployment2) <= p
    ensures app == app2 && deployment == deployment2
  {
    var n := |Root(keyPrefix)|;
    assert Home(keyPrefix, app, deployment)[n] == app == p[n];
    assert Home(keyPrefix, app, deployment)[n + 2] == deployment == p[n + 2];
    assert Home(keyPrefix, app2, deployment2)[n] == app2;
    assert Home(keyPrefix, app2, deployment2)[n + 2] == deployment2;
  }
}
