/** Extraction of an uploaded archive into the deployment's tree, under three limits. */
module Extract {
  import opened Wrappers
  import opened Text
  import opened Paths
  import opened FileTree
  import opened StorageKeys

  type Files = map<Path, Bytes>

  /** An archive member: its kind, name, declared size and data; reading a broken one fails after that data. */
  datatype Member = Member(isFile: bool, name: string, size: int, content: Bytes, broken: bool)

  /** What the tar library makes of the artifact: no archive at all, one whose members cannot be listed, or members. */
  datatype Parsed = NoArchive | Unreadable | Archive(members: seq<Member>)

  datatype Limits = Limits(maxFiles: int, maxTotal: int, maxFile: int)

  datatype Outcome = Extracted(count: nat) | LimitExceeded | StorageRefused | ArchiveBroken | ArtifactMissing

  /** A member that will be written, and where below the tree. */
  datatype Entry = Entry(tail: Path, size: int, content: Bytes, broken: bool)

  /** Only files with a usable name are written. */
  function EntryOf(m: Member): Option<Entry> {
    var name := NormalizeRelativePath(m.name);
    if m.isFile && name.Some? then Some(Entry(Tail(name.value), m.size, m.content, m.broken)) else None
  }

  function Entries(members: seq<Member>): seq<Entry> {
    if members == [] then []
    else if EntryOf(members[0]).None? then Entries(members[1..])
    else [EntryOf(members[0]).value] + Entries(members[1..])
  }

  const CHUNK := 65536

  datatype Read = Whole(bytes: Bytes) | TooLong | ReadFails

  /** Reads a member chunk by chunk and gives up as soon as it is too long. */
  method ReadMemberLimited(content: Bytes, broken: bool, maxFile: int) returns (read: Read)
    ensures read == if content != [] && |content| > maxFile then TooLong
                    else if broken then ReadFails
                    else Whole(content)
  {
    var chunks: Bytes := [];
    var total := 0;
    while total < |content|
      invariant total == |chunks| <= |content| && chunks == content[..total]
      invariant total == 0 || total <= maxFile
    {
      var chunk := content[total..Min(total + CHUNK, |content|)];
      total := total + |chunk|;
      if total > maxFile {
        return TooLong;
      }
      chunks := chunks + chunk;
    }
    assert content[..total] == content;
    return if broken then ReadFails else Whole(chunks);
  }

  predicate TooBig(e: Entry, limits: Limits) {
    e.size > limits.maxFile || (e.content != [] && |e.content| > limits.maxFile)
  }

  /** Names that stripping has turned into '.' or '..' are refused by the storage. */
  predicate Awkward(tail: Path) {
    tail != [] && (tail[|tail| - 1] == "." || tail[|tail| - 1] == "..")
  }

  /** The place the operating system reaches under a key, whose last part may be '.' or '..'. */
  function Place(tree: Path, tail: Path): Path {
    var p := tree + tail;
    if !Awkward(tail) then p else if tail[|tail| - 1] == "." then Parent(p) else Parent(Parent(p))
  }

  /** A file cannot be written where a directory is, nor below a file. */
  predicate Clashes(files: Files, p: Path) {
    exists q {:trigger q in files} :: q in files && (q < p || p < q)
  }

  /** What becomes of one member; None when it is written. */
  function MemberError(files: Files, tree: Path, e: Entry, count: nat, total: nat, limits: Limits): Option<Outcome> {
    if count >= limits.maxFiles || TooBig(e, limits) then Some(LimitExceeded)
    else if e.broken then Some(ArchiveBroken)
    else if total + |e.content| > limits.maxTotal then Some(LimitExceeded)
    else if Awkward(e.tail) || Clashes(files, tree + e.tail) then Some(StorageRefused)
    else None
  }

  /** The storage deletes what it finds at the place before it refuses an awkward name. */
  function AfterError(files: Files, tree: Path, e: Entry, error: Outcome): Files
  {
    if error.StorageRefused? && Awkward(e.tail) then files - {Place(tree, e.tail)} else files
  }

  /** What extracting the entries does, one after the other. */
  function ExtractEntries(files: Files, tree: Path, entries: seq<Entry>, count: nat, total: nat, limits: Limits)
    : (Outcome, Files)
    decreases |entries|
  {
    if entries == [] then (Extracted(count), files)
    else
      var e, error := entries[0], MemberError(files, tree, entries[0], count, total, limits);
      if error.Some? then (error.value, AfterError(files, tree, e, error.value))
      else ExtractEntries(files[tree + e.tail := e.content], tree, entries[1..], count + 1, total + |e.content|, limits)
  }

  lemma EntriesFrom(members: seq<Member>, i: nat)
    requires i < |members|
    ensures Entries(members[i..]) == match EntryOf(members[i])
                                     case None => Entries(members[i + 1..])
                                     case Some(e) => [e] + Entries(members[i + 1..])
  {
    assert members[i..][1..] == members[i + 1..];
  }

  lemma ExtractNext(files: Files, tree: Path, e: Entry, rest: seq<Entry>, count: nat, total: nat, limits: Limits)
    ensures ExtractEntries(files, tree, [e] + rest, count, total, limits)
            == match MemberError(files, tree, e, count, total, limits)
               case Some(error) => (error, AfterError(files, tree, e, error))
               case None =>
                 ExtractEntries(files[tree + e.tail := e.content], tree, rest, count + 1, total + |e.content|, limits)
  {
    assert ([e] + rest)[1..] == rest;
  }

  lemma PlaceInside(tree: Path, tail: Path)
    requires tree != []
    ensures tree <= Place(tree, tail) || Place(tree, tail) == Parent(tree)
  {
    var p := tree + tail;
    assert p[..|tree|] == tree;
    if Awkward(tail) && |tail| > 1 {
      assert tree == Parent(Parent(p))[..|tree|];
    }
    if Awkward(tail) && |tail| == 1 {
      assert Parent(p) == tree;
    }
  }

  lemma AboveParent(tree: Path, p: Path)
    requires tree <= p || p == Parent(tree)
    ensures Parent(tree) <= p
  {
    if tree <= p && tree != [] {
      assert p[..|tree|] == tree;
    }
  }

  /** Writes one member; a file in its place is replaced, everything else in the way makes the storage refuse. */
  method SaveMember(disk: Disk, tree: Path, tail: Path, content: Bytes) returns (ok: bool)
    requires Filling(disk, tree)
    modifies disk
    ensures disk.WellFormed()
    ensures ok == !(Awkward(tail) || Clashes(old(disk.files), tree + tail))
    ensures ok ==> disk.files == old(disk.files)[tree + tail := content]
    ensures ok ==> Filling(disk, tree)
    ensures !ok ==> disk.files == if Awkward(tail) then old(disk.files) - {Place(tree, tail)} else old(disk.files)
    ensures forall d {:trigger d in disk.dirs} :: d in disk.dirs ==> d in old(disk.dirs) || d <= tree || tree <= d
  {
    var dest, place := tree + tail, Place(tree, tail);
    PlaceInside(tree, tail);
    AboveParent(tree, place);
    disk.DirectoryHolds(Parent(tree), place);
    if place in disk.files {
      FileClashes(disk, place);
    }
    if disk.Exists(place) {
      var deleted := disk.Delete(place);
      if !deleted {
        return false;
      }
    }
    if Awkward(tail) {
      return false;
    }
    ghost var bare := disk.files;
    assert Clashes(old(disk.files), dest) <==> exists q :: q in bare && q < dest;
    ghost var dirs := disk.dirs;
    ok := disk.Save(dest, content);
    forall d | d in disk.dirs && d !in dirs
      ensures d <= tree || tree <= d
    {
      AboveOrBelow(tree, dest, d);
    }
    if ok {
      forall d | d in disk.dirs && Parent(tree) <= d
        ensures exists q :: q in disk.files && d < q
      {
        if d !in old(disk.dirs) {
          assert d < dest && dest in disk.files;
        } else {
          var q :| q in old(disk.files) && d < q;
          assert q in disk.files;
        }
      }
    }
  }

  /** A place that already is a file clashes with nothing. */
  lemma FileClashes(disk: Disk, p: Path)
    requires disk.WellFormed() && p in disk.files
    ensures !disk.Holds(p) && !Clashes(disk.files, p)
  {
    disk.FileIsALeaf(p);
    forall q | q in disk.files
      ensures !(q < p)
    {
      if q < p {
        disk.BelowDirectories(p, q);
      }
    }
  }

  /** What a method may rely on while it fills a tree: the directories around it are in use. */
  ghost predicate Filling(disk: Disk, tree: Path)
    reads disk
  {
    disk.WellFormed() && |tree| > 1 && disk.NoneEmpty(Parent(tree)) && Parent(tree) !in disk.files
  }

  /** One member, from the limit checks to the write. */
  method ExtractMember(disk: Disk, tree: Path, e: Entry, count: nat, total: nat, limits: Limits)
    returns (error: Option<Outcome>)
    requires Filling(disk, tree)
    modifies disk
    ensures disk.WellFormed()
    ensures error == MemberError(old(disk.files), tree, e, count, total, limits)
    ensures error.None? ==> Filling(disk, tree) && disk.files == old(disk.files)[tree + e.tail := e.content]
    ensures error.Some? ==> disk.files == AfterError(old(disk.files), tree, e, error.value)
    ensures forall d {:trigger d in disk.dirs} :: d in disk.dirs ==> d in old(disk.dirs) || d <= tree || tree <= d
  {
    if count >= limits.maxFiles {
      return Some(LimitExceeded);
    }
    if e.size > limits.maxFile {
      return Some(LimitExceeded);
    }
    var content := ReadMemberLimited(e.content, e.broken, limits.maxFile);
    if content.TooLong? {
      return Some(LimitExceeded);
    }
    if content.ReadFails? {
      return Some(ArchiveBroken);
    }
    if total + |content.bytes| > limits.maxTotal {
      return Some(LimitExceeded);
    }
    var saved := SaveMember(disk, tree, e.tail, content.bytes);
    error := if saved then None else Some(StorageRefused);
  }

  /** The extraction loop over the archive's members. */
  method ExtractTarMembers(disk: Disk, tree: Path, members: seq<Member>, limits: Limits) returns (outcome: Outcome)
    requires Filling(disk, tree)
    modifies disk
    ensures disk.WellFormed()
    ensures (outcome, disk.files) == ExtractEntries(old(disk.files), tree, Entries(members), 0, 0, limits)
    ensures forall d {:trigger d in disk.dirs} :: d in disk.dirs ==> d in old(disk.dirs) || d <= tree || tree <= d
  {
    var count: nat, totalBytes: nat := 0, 0;
    ghost var spec, rest := ExtractEntries(disk.files, tree, Entries(members), 0, 0, limits), Entries(members);
    assert members[0..] == members;
    for i := 0 to |members|
      invariant Filling(disk, tree)
      invariant rest == Entries(members[i..])
      invariant spec == ExtractEntries(disk.files, tree, rest, count, totalBytes, limits)
      invariant forall d {:trigger d in disk.dirs} :: d in disk.dirs ==> d in old(disk.dirs) || d <= tree || tree <= d
    {
      EntriesFrom(members, i);
      rest := Entries(members[i + 1..]);
      var member := members[i];
      if !member.isFile {
        continue;
      }
      var rel := NormalizeRelativePath(member.name);
      if rel.None? {
        continue;
      }
      var entry := Entry(Tail(rel.value), member.size, member.content, member.broken);
      ExtractNext(disk.files, tree, entry, rest, count, totalBytes, limits);
      var error := ExtractMember(disk, tree, entry, count, totalBytes, limits);
      if error.Some? {
        return error.value;
      }
      count := count + 1;
      totalBytes := totalBytes + |entry.content|;
    }
    assert members[|members|..] == [];
    outcome := Extracted(count);
  }

  // ---------- what a successful extraction means ----------

  /** The files below a tree, by their place in it. */
  function TreeOf(files: Files, tree: Path): Files {
    map tail | tail in (set p | p in files && tree <= p :: p[|tree|..]) && tree + tail in files :: files[tree + tail]
  }

  /** Later entries of the same place replace earlier ones. */
  function LastWins(entries: seq<Entry>): Files {
    if entries == [] then map[]
    else LastWins(entries[..|entries| - 1])[entries[|entries| - 1].tail := entries[|entries| - 1].content]
  }

  /** The storage after writing all entries. */
  function Written(files: Files, tree: Path, entries: seq<Entry>): Files {
    if entries == [] then files
    else
      var last := entries[|entries| - 1];
      Written(files, tree, entries[..|entries| - 1])[tree + last.tail := last.content]
  }

  function TotalSize(entries: seq<Entry>): nat {
    if entries == [] then 0
    else TotalSize(entries[..|entries| - 1]) + |entries[|entries| - 1].content|
  }

  predicate FitsUpTo(entries: seq<Entry>, k: nat, limits: Limits)
    requires k <= |entries|
  {
    k == 0 ||
    (k <= limits.maxFiles && TotalSize(entries[..k]) <= limits.maxTotal
     && forall i :: 0 <= i < k ==>
          entries[i].size <= limits.maxFile && (entries[i].content == [] || |entries[i].content| <= limits.maxFile))
  }

  predicate Fits(entries: seq<Entry>, limits: Limits) {
    FitsUpTo(entries, |entries|, limits)
  }

  /** The archive gives the data of the first k entries. */
  predicate ReadableUpTo(entries: seq<Entry>, k: nat)
    requires k <= |entries|
  {
    forall i :: 0 <= i < k ==> !entries[i].broken
  }

  predicate Readable(entries: seq<Entry>) {
    ReadableUpTo(entries, |entries|)
  }

  /** No entry needs a directory where another needs a file. */
  ghost predicate SmoothUpTo(files: Files, tree: Path, entries: seq<Entry>, k: nat)
    requires k <= |entries|
  {
    && (forall i :: 0 <= i < k ==>
          entries[i].tail == [] || entries[i].tail[|entries[i].tail| - 1] !in {".", ".."})
    && (forall i, j :: 0 <= i < k && 0 <= j < k ==> !(entries[i].tail < entries[j].tail))
    && (tree in files ==> forall i :: 0 <= i < k ==> entries[i].tail == [])
  }

  ghost predicate Smooth(files: Files, tree: Path, entries: seq<Entry>) {
    SmoothUpTo(files, tree, entries, |entries|)
  }

  /** Nothing below the tree and no file on the way to it; the tree itself may be a stray file. */
  ghost predicate Ready(files: Files, tree: Path) {
    forall q {:trigger q in files} | q in files :: !(q < tree) && !(tree < q)
  }

  lemma {:induction false} WrittenKeys(files: Files, tree: Path, entries: seq<Entry>, k: nat, p: Path)
    requires k <= |entries|
    ensures p in Written(files, tree, entries[..k])
            <==> p in files || exists i :: 0 <= i < k && p == tree + entries[i].tail
  {
    if k > 0 {
      WrittenKeys(files, tree, entries, k - 1, p);
      assert entries[..k][..k - 1] == entries[..k - 1];
    }
  }

  lemma {:induction false} WrittenTree(files: Files, tree: Path, entries: seq<Entry>, tail: Path)
    ensures tail in LastWins(entries) ==>
              && tree + tail in Written(files, tree, entries)
              && Written(files, tree, entries)[tree + tail] == LastWins(entries)[tail]
    ensures tail !in LastWins(entries) ==>
              && (tree + tail in Written(files, tree, entries) <==> tree + tail in files)
              && (tree + tail in files ==> Written(files, tree, entries)[tree + tail] == files[tree + tail])
  {
    if entries != [] {
      var last := entries[|entries| - 1];
      WrittenTree(files, tree, entries[..|entries| - 1], tail);
      assert (tree + tail)[|tree|..] == tail && (tree + last.tail)[|tree|..] == last.tail;
    }
  }

  /** A written tree that was empty before holds exactly the last-write-wins content. */
  lemma TreeIsLastWins(files: Files, tree: Path, entries: seq<Entry>)
    requires Ready(files, tree) && (tree in files ==> [] in LastWins(entries))
    ensures TreeOf(Written(files, tree, entries), tree) == LastWins(entries)
  {
    var after := Written(files, tree, entries);
    forall tail
      ensures tail in TreeOf(after, tree) <==> tail in LastWins(entries)
      ensures tail in LastWins(entries) ==> TreeOf(after, tree)[tail] == LastWins(entries)[tail]
    {
      WrittenTree(files, tree, entries, tail);
      TreeLookup(after, tree, tail);
      if tree + tail in files {
        assert tree + tail == tree || tree < tree + tail;
      }
    }
  }

  lemma TreeLookup(files: Files, tree: Path, tail: Path)
    ensures tail in TreeOf(files, tree) <==> tree + tail in files
    ensures tree + tail in files ==> TreeOf(files, tree)[tail] == files[tree + tail]
  {
    assert (tree + tail)[|tree|..] == tail && tree <= tree + tail;
    if tree + tail in files {
      var p := tree + tail;
      assert p in files && tree <= p && p[|tree|..] == tail;
    }
  }

  /** LastWins means what it says. */
  lemma {:induction false} LastEntryWins(entries: seq<Entry>, i: nat)
    requires i < |entries| && forall j | i < j < |entries| :: entries[j].tail != entries[i].tail
    ensures entries[i].tail in LastWins(entries) && LastWins(entries)[entries[i].tail] == entries[i].content
  {
    if i < |entries| - 1 {
      LastEntryWins(entries[..|entries| - 1], i);
    }
  }

  lemma {:induction false} TotalSizeGrows(entries: seq<Entry>, k: nat)
    requires k <= |entries|
    ensures TotalSize(entries[..k]) <= TotalSize(entries)
    decreases |entries|
  {
    if k < |entries| {
      TotalSizeGrows(entries[..|entries| - 1], k);
      assert entries[..|entries| - 1][..k] == entries[..k];
    } else {
      assert entries[..k] == entries;
    }
  }

  lemma PrefixBelow(tree: Path, a: Path, b: Path)
    ensures a < b <==> tree + a < tree + b
  {
    if a < b {
      assert b == a + b[|a|..];
      assert tree + b == tree + a + b[|a|..];
    }
    if tree + a < tree + b {
      assert (tree + b)[|tree|..] == b && (tree + a)[|tree|..] == a;
      assert (tree + b)[..|tree + a|] == tree + a;
      assert b[..|a|] == a;
    }
  }

  lemma AboveOrBelow(tree: Path, p: Path, q: Path)
    requires tree <= p
    ensures p < q ==> tree < q
    ensures q < p ==> q < tree || q == tree || tree < q
  {
    if p < q {
      assert tree == p[..|tree|] == q[..|p|][..|tree|];
    }
    if q < p && |tree| <= |q| {
      assert tree == p[..|tree|] == q[..|tree|];
    }
    if q < p && |q| < |tree| {
      assert q == p[..|q|] == tree[..|q|];
    }
  }

  /** Only a stray file at the tree itself can stand in the way of a new place. */
  lemma OldClash(files: Files, tree: Path, tail: Path, q: Path)
    requires Ready(files, tree) && q in files
    ensures q < tree + tail || tree + tail < q <==> q == tree && tail != []
  {
    AboveOrBelow(tree, tree + tail, q);
  }

  lemma ClashesExactly(files: Files, tree: Path, entries: seq<Entry>, k: nat, tail: Path)
    requires Ready(files, tree) && k <= |entries|
    ensures Clashes(Written(files, tree, entries[..k]), tree + tail)
            <==> || (tree in files && tail != [])
                 || exists i :: 0 <= i < k && (entries[i].tail < tail || tail < entries[i].tail)
  {
    var now, p := Written(files, tree, entries[..k]), tree + tail;
    if Clashes(now, p) {
      var q :| q in now && (q < p || p < q);
      WrittenKeys(files, tree, entries, k, q);
      if q in files {
        OldClash(files, tree, tail, q);
      } else {
        var i :| 0 <= i < k && q == tree + entries[i].tail;
        PrefixBelow(tree, entries[i].tail, tail);
        PrefixBelow(tree, tail, entries[i].tail);
      }
    }
    if tree in files && tail != [] {
      WrittenKeys(files, tree, entries, k, tree);
      assert tree in now && tree < p;
    }
    forall i | 0 <= i < k && (entries[i].tail < tail || tail < entries[i].tail)
      ensures Clashes(now, p)
    {
      WrittenKeys(files, tree, entries, k, tree + entries[i].tail);
      PrefixBelow(tree, entries[i].tail, tail);
      PrefixBelow(tree, tail, entries[i].tail);
      assert tree + entries[i].tail in now;
    }
  }

  /** The storage refuses the next entry exactly when it makes the entries clash. */
  lemma SmoothNext(files: Files, tree: Path, entries: seq<Entry>, k: nat)
    requires Ready(files, tree) && k < |entries| && SmoothUpTo(files, tree, entries, k)
    ensures SmoothUpTo(files, tree, entries, k + 1)
            <==> !Awkward(entries[k].tail) && !Clashes(Written(files, tree, entries[..k]), tree + entries[k].tail)
  {
    ClashesExactly(files, tree, entries, k, entries[k].tail);
  }

  predicate OverLimit(entries: seq<Entry>, k: nat, limits: Limits)
    requires k < |entries|
  {
    || k >= limits.maxFiles
    || TooBig(entries[k], limits)
    || TotalSize(entries[..k]) + |entries[k].content| > limits.maxTotal
  }

  /** The limit checks of the next entry are exactly what it takes for the longer list to fit. */
  lemma FitsNext(entries: seq<Entry>, k: nat, limits: Limits)
    requires k < |entries| && FitsUpTo(entries, k, limits)
    ensures FitsUpTo(entries, k + 1, limits) <==> !OverLimit(entries, k, limits)
  {
    assert entries[..k + 1][..k] == entries[..k];
  }

  /** Extraction from the k-th entry on. */
  ghost function Resume(files: Files, tree: Path, entries: seq<Entry>, k: nat, limits: Limits): (Outcome, Files)
    requires k <= |entries|
  {
    ExtractEntries(Written(files, tree, entries[..k]), tree, entries[k..], k, TotalSize(entries[..k]), limits)
  }

  function ErrorAt(files: Files, tree: Path, entries: seq<Entry>, k: nat, limits: Limits): Option<Outcome>
    requires k < |entries|
  {
    MemberError(Written(files, tree, entries[..k]), tree, entries[k], k, TotalSize(entries[..k]), limits)
  }

  lemma ResumeNext(files: Files, tree: Path, entries: seq<Entry>, k: nat, limits: Limits)
    requires k < |entries|
    ensures var now := Written(files, tree, entries[..k]);
            Resume(files, tree, entries, k, limits)
            == match ErrorAt(files, tree, entries, k, limits)
               case Some(error) => (error, AfterError(now, tree, entries[k], error))
               case None => Resume(files, tree, entries, k + 1, limits)
  {
    assert entries[..k + 1][..k] == entries[..k];
    assert entries[k..] == [entries[k]] + entries[k + 1..];
    var now := Written(files, tree, entries[..k]);
    ExtractNext(now, tree, entries[k], entries[k + 1..], k, TotalSize(entries[..k]), limits);
  }

  /** What extraction does: it writes a prefix, all of it exactly when everything fits and nothing clashes. */
  ghost predicate Explained(result: (Outcome, Files), files: Files, tree: Path, entries: seq<Entry>, k: nat,
                            limits: Limits)
    requires k <= |entries|
  {
    && (forall i :: 0 <= i < k ==> ErrorAt(files, tree, entries, i, limits) == None)
    && FitsUpTo(entries, k, limits) && SmoothUpTo(files, tree, entries, k) && ReadableUpTo(entries, k)
    && var written := Written(files, tree, entries[..k]);
       if k == |entries| then result == (Extracted(k), written)
       else
         var error := ErrorAt(files, tree, entries, k, limits);
         && error.Some? && result == (error.value, AfterError(written, tree, entries[k], error.value))
         && (error.value.LimitExceeded? ==> !FitsUpTo(entries, k + 1, limits))
         && (error.value.StorageRefused? ==> !SmoothUpTo(files, tree, entries, k + 1))
         && (error.value.ArchiveBroken? ==> entries[k].broken)
  }

  lemma {:induction false} ResumeExplained(files: Files, tree: Path, entries: seq<Entry>, k: nat, limits: Limits)
    returns (end: nat)
    requires Ready(files, tree) && k <= |entries|
    requires FitsUpTo(entries, k, limits) && SmoothUpTo(files, tree, entries, k)
    requires forall i :: 0 <= i < k ==> ErrorAt(files, tree, entries, i, limits) == None
    requires ReadableUpTo(entries, k)
    ensures end <= |entries| && Explained(Resume(files, tree, entries, k, limits), files, tree, entries, end, limits)
    decreases |entries| - k
  {
    end := k;
    if k < |entries| {
      ResumeNext(files, tree, entries, k, limits);
      FitsNext(entries, k, limits);
      SmoothNext(files, tree, entries, k);
      if FitsUpTo(entries, k + 1, limits) && SmoothUpTo(files, tree, entries, k + 1) && !entries[k].broken {
        end := ResumeExplained(files, tree, entries, k + 1, limits);
      }
    }
  }

  lemma PrefixFits(entries: seq<Entry>, k: nat, limits: Limits)
    requires k <= |entries| && Fits(entries, limits)
    ensures FitsUpTo(entries, k, limits)
  {
    TotalSizeGrows(entries, k);
    assert entries[..|entries|] == entries;
  }

  /** What a prefix that was written says about the whole archive. */
  lemma ExplainedMeans(result: (Outcome, Files), files: Files, tree: Path, entries: seq<Entry>, end: nat,
                       limits: Limits)
    requires end <= |entries| && Explained(result, files, tree, entries, end, limits)
    ensures result.0.Extracted? <==> Fits(entries, limits) && Smooth(files, tree, entries) && Readable(entries)
    ensures result.0.ArchiveBroken? ==> !Readable(entries)
    ensures result.0.LimitExceeded? ==> !Fits(entries, limits)
    ensures result.0.StorageRefused? ==> !Smooth(files, tree, entries)
    ensures !result.0.ArtifactMissing?
  {
    if Fits(entries, limits) && end < |entries| {
      PrefixFits(entries, end + 1, limits);
    }
  }

  /** Extraction writes a prefix, and all of it exactly when the entries fit the limits and clash nowhere. */
  lemma ExtractionExplained(files: Files, tree: Path, entries: seq<Entry>, limits: Limits) returns (end: nat)
    requires Ready(files, tree)
    ensures end <= |entries|
    ensures Explained(ExtractEntries(files, tree, entries, 0, 0, limits), files, tree, entries, end, limits)
  {
    end := ResumeExplained(files, tree, entries, 0, limits);
    assert entries[0..] == entries && entries[..0] == [];
  }

  /** Whatever happens, nothing outside the tree changes. */
  lemma {:induction false} ExtractionStaysInside
    (files: Files, tree: Path, entries: seq<Entry>, count: nat, total: nat, limits: Limits, p: Path)
    requires tree != [] && Parent(tree) !in files && !(tree <= p)
    ensures var after := ExtractEntries(files, tree, entries, count, total, limits).1;
            (p in after <==> p in files) && (p in files ==> after[p] == files[p])
    decreases |entries|
  {
    if entries != [] {
      var e := entries[0];
      PlaceInside(tree, e.tail);
      assert tree <= tree + e.tail;
      var next := files[tree + e.tail := e.content];
      ExtractionStaysInside(next, tree, entries[1..], count + 1, total + |e.content|, limits, p);
    }
  }

  // ---------- the whole artifact ----------

  function TreeIn(home: Path): Path { home + [EXTRACTED] }

  function ArtifactIn(home: Path): Path { home + [ARTIFACT] }

  /** What the archive stored in a deployment's directory will write; nothing when it is empty or no archive. */
  function ArchiveEntries(files: Files, home: Path, parse: Bytes -> Parsed): seq<Entry>
    requires ArtifactIn(home) in files
  {
    var data := files[ArtifactIn(home)];
    if data == [] then []
    else match parse(data)
         case Archive(members) => Entries(members)
         case _ => []
  }

  predicate Unlistable(data: Bytes, parse: Bytes -> Parsed) {
    data != [] && parse(data) == Unreadable
  }

  /** Extraction into a cleared tree, which is cleared again when a limit is exceeded. */
  function ExtractArtifact(files: Files, home: Path, parse: Bytes -> Parsed, limits: Limits): (Outcome, Files) {
    if ArtifactIn(home) !in files then (ArtifactMissing, files)
    else if Unlistable(files[ArtifactIn(home)], parse) then (ArchiveBroken, Cleared(files, TreeIn(home)))
    else
      var (outcome, after) :=
        ExtractEntries(Cleared(files, TreeIn(home)), TreeIn(home), ArchiveEntries(files, home, parse), 0, 0, limits);
      (outcome, if outcome.LimitExceeded? then Cleared(after, TreeIn(home)) else after)
  }

  /** No file is above another. */
  ghost predicate Layered(files: Files) {
    forall p, q {:trigger p in files, q in files} :: p in files && q in files ==> !(p < q)
  }

  /** The deployment's directory has no other subdirectory than the tree. */
  ghost predicate OnlyTree(disk: Disk, home: Path)
    reads disk
  {
    forall d {:trigger d in disk.dirs} :: d in disk.dirs && home <= d ==> d == home || TreeIn(home) <= d
  }

  lemma ArtifactBeside(home: Path)
    ensures home < ArtifactIn(home) && !(TreeIn(home) <= ArtifactIn(home)) && Parent(TreeIn(home)) == home
  {
    Literals();
    assert ArtifactIn(home)[|home|] == ARTIFACT && TreeIn(home)[|home|] == EXTRACTED;
  }

  /** Extracts a deployment's artifact on disk. */
  method ExtractDeploymentArtifact(disk: Disk, home: Path, parse: Bytes -> Parsed, limits: Limits)
    returns (outcome: Outcome)
    requires disk.WellFormed() && home != [] && OnlyTree(disk, home)
    modifies disk
    ensures disk.WellFormed()
    ensures (outcome, disk.files) == ExtractArtifact(old(disk.files), home, parse, limits)
    ensures forall d {:trigger d in disk.dirs} :: d in disk.dirs ==>
              d in old(disk.dirs) || d <= TreeIn(home) || TreeIn(home) <= d
  {
    var key, tree := ArtifactIn(home), TreeIn(home);
    if key !in disk.files {
      return ArtifactMissing;
    }
    ArtifactBeside(home);
    disk.DeleteTree(tree);
    var data := disk.files[key];
    if data == [] {
      return Extracted(0);
    }
    var tar := parse(data);
    if tar.NoArchive? {
      return Extracted(0);
    }
    if tar.Unreadable? {
      return ArchiveBroken;
    }
    TreeCleared(disk, home);
    outcome := ExtractTarMembers(disk, tree, tar.members, limits);
    if outcome.LimitExceeded? {
      disk.DeleteTree(tree);
    }
  }

  lemma TreeCleared(disk: Disk, home: Path)
    requires disk.WellFormed() && home != [] && ArtifactIn(home) in disk.files
    requires OnlyTree(disk, home)
    requires TreeIn(home) in disk.files || forall d {:trigger d in disk.dirs} :: d in disk.dirs ==> !(TreeIn(home) <= d)
    ensures Filling(disk, TreeIn(home))
  {
    ArtifactBeside(home);
    disk.BelowDirectories(ArtifactIn(home), home);
    forall d | d in disk.dirs && home <= d
      ensures d == home
    {
      if TreeIn(home) in disk.files && d != TreeIn(home) {
        disk.FileIsALeaf(TreeIn(home));
      }
    }
  }

  lemma AboveBoth(home: Path, q: Path)
    ensures q < TreeIn(home) ==> q < ArtifactIn(home)
  {
    if q < TreeIn(home) {
      assert q == home[..|q|];
    }
  }

  lemma ClearedReady(files: Files, home: Path)
    requires Layered(files) && ArtifactIn(home) in files
    ensures Ready(Cleared(files, TreeIn(home)), TreeIn(home)) && home !in files
    ensures ArtifactIn(home) in Cleared(files, TreeIn(home))
  {
    ArtifactBeside(home);
    forall q | q in files
      ensures !(q < TreeIn(home))
    {
      AboveBoth(home, q);
    }
  }

  lemma {:induction false} ExtractionKeepsLayers
    (files: Files, tree: Path, entries: seq<Entry>, count: nat, total: nat, limits: Limits)
    requires Layered(files)
    ensures Layered(ExtractEntries(files, tree, entries, count, total, limits).1)
    decreases |entries|
  {
    if entries != [] && MemberError(files, tree, entries[0], count, total, limits) == None {
      var e := entries[0];
      var next := files[tree + e.tail := e.content];
      ExtractionKeepsLayers(next, tree, entries[1..], count + 1, total + |e.content|, limits);
    }
  }

  /** Extraction touches nothing outside the tree and leaves no file above another. */
  lemma ArtifactStaysInside(files: Files, home: Path, parse: Bytes -> Parsed, limits: Limits, p: Path)
    requires Layered(files) && !(TreeIn(home) <= p)
    ensures var after := ExtractArtifact(files, home, parse, limits).1;
            && (p in after <==> p in files)
            && (p in files ==> after[p] == files[p])
            && Layered(after)
  {
    if ArtifactIn(home) in files {
      ArtifactBeside(home);
      ClearedReady(files, home);
      var cleared, entries := Cleared(files, TreeIn(home)), ArchiveEntries(files, home, parse);
      ExtractionStaysInside(cleared, TreeIn(home), entries, 0, 0, limits, p);
      ExtractionKeepsLayers(cleared, TreeIn(home), entries, 0, 0, limits);
    }
  }

  lemma SmoothAfterClearing(files: Files, tree: Path, entries: seq<Entry>)
    ensures Smooth(Cleared(files, tree), tree, entries) <==> Smooth(files, tree, entries)
  {
  }

  /** The archive can be listed and gives the data of every member that is written. */
  predicate ArchiveReadable(files: Files, home: Path, parse: Bytes -> Parsed)
    requires ArtifactIn(home) in files
  {
    !Unlistable(files[ArtifactIn(home)], parse) && Readable(ArchiveEntries(files, home, parse))
  }

  /** Extraction is exact: it succeeds when everything can be read, fits and clashes nowhere, and an error says which
      of the three failed. */
  lemma ArtifactExact(files: Files, home: Path, parse: Bytes -> Parsed, limits: Limits)
    requires Layered(files) && ArtifactIn(home) in files
    ensures var outcome, entries := ExtractArtifact(files, home, parse, limits).0, ArchiveEntries(files, home, parse);
            && (outcome.Extracted? <==>
                Fits(entries, limits) && Smooth(files, TreeIn(home), entries) && ArchiveReadable(files, home, parse))
            && (outcome.LimitExceeded? ==> !Fits(entries, limits))
            && (outcome.StorageRefused? ==> !Smooth(files, TreeIn(home), entries))
            && (outcome.ArchiveBroken? ==> !ArchiveReadable(files, home, parse))
            && !outcome.ArtifactMissing?
  {
    ClearedReady(files, home);
    var cleared, tree, entries := Cleared(files, TreeIn(home)), TreeIn(home), ArchiveEntries(files, home, parse);
    var end := ExtractionExplained(cleared, tree, entries, limits);
    ExplainedMeans(ExtractEntries(cleared, tree, entries, 0, 0, limits), cleared, tree, entries, end, limits);
    SmoothAfterClearing(files, tree, entries);
  }

  /** On success every entry has been counted, and the tree holds the last content of each name, and nothing else
      unless a plain file was at the tree's place and there was nothing to write over it. */
  lemma ArtifactTree(files: Files, home: Path, parse: Bytes -> Parsed, limits: Limits)
    requires Layered(files) && ArtifactIn(home) in files
    ensures var (outcome, after) := ExtractArtifact(files, home, parse, limits);
            var entries, tree := ArchiveEntries(files, home, parse), TreeIn(home);
            outcome.Extracted? ==>
              && outcome.count == |entries|
              && (TreeOf(after, tree) == LastWins(entries) <==> !(tree in files && entries == []))
  {
    ClearedReady(files, home);
    var cleared, tree, entries := Cleared(files, TreeIn(home)), TreeIn(home), ArchiveEntries(files, home, parse);
    var end := ExtractionExplained(cleared, tree, entries, limits);
    var (outcome, after) := ExtractArtifact(files, home, parse, limits);
    if outcome.Extracted? {
      ExplainedMeans(ExtractEntries(cleared, tree, entries, 0, 0, limits), cleared, tree, entries, end, limits);
      assert entries[..|entries|] == entries;
      if tree in files && entries == [] {
        TreeLookup(after, tree, []);
        assert tree + [] == tree;
      } else {
        if tree in files {
          OnlyTheTree(cleared, tree, entries);
        }
        TreeIsLastWins(cleared, tree, entries);
      }
    }
  }

  /** With a plain file at the tree's place only members that take that place can be written. */
  lemma OnlyTheTree(files: Files, tree: Path, entries: seq<Entry>)
    requires tree in files && entries != [] && Smooth(files, tree, entries)
    ensures [] in LastWins(entries)
  {
    assert entries[|entries| - 1].tail == [];
  }

  lemma FirstEntryWritten(result: (Outcome, Files), files: Files, tree: Path, entries: seq<Entry>, end: nat,
                          limits: Limits)
    requires end < |entries| && Explained(result, files, tree, entries, end, limits) && result.0.LimitExceeded?
    ensures end > 0 <==> !OverLimit(entries, 0, limits)
  {
    FitsNext(entries, 0, limits);
    if end > 0 {
      assert ErrorAt(files, tree, entries, 0, limits) == None;
    }
  }

  /** Exceeding a limit leaves nothing of the tree, except when the tree's own place is a plain file:
      one that was there before, or one written for a first member whose name is all blanks. */
  lemma LimitLeavesNothing(files: Files, home: Path, parse: Bytes -> Parsed, limits: Limits)
    requires Layered(files) && ExtractArtifact(files, home, parse, limits).0.LimitExceeded?
    ensures var after, tree := ExtractArtifact(files, home, parse, limits).1, TreeIn(home);
            var entries := ArchiveEntries(files, home, parse);
            && (forall p {:trigger p in after} :: p in after && tree <= p ==> p == tree)
            && (tree in after <==>
                tree in files || (entries != [] && entries[0].tail == [] && !OverLimit(entries, 0, limits)))
  {
    ClearedReady(files, home);
    var tree, cleared, entries := TreeIn(home), Cleared(files, TreeIn(home)), ArchiveEntries(files, home, parse);
    var end := ExtractionExplained(cleared, tree, entries, limits);
    var written := Written(cleared, tree, entries[..end]);
    assert ExtractEntries(cleared, tree, entries, 0, 0, limits) == (LimitExceeded, written);
    WrittenKeys(cleared, tree, entries, end, tree);
    assert tree in written <==> tree in files || (end > 0 && entries[0].tail == []);
    FirstEntryWritten((LimitExceeded, written), cleared, tree, entries, end, limits);
    if tree in written {
      forall p | p in written && tree <= p
        ensures p == tree
      {
        WrittenKeys(cleared, tree, entries, end, p);
      }
    }
  }

  lemma {:induction false} AllBlank(s: string)
    requires forall c | c in s :: IsSpace(c)
    ensures StripRight(s, IsSpace) == ""
  {
    if s != "" {
      assert s[|s| - 1] in s;
      assert forall c | c in s[..|s| - 1] :: c in s;
      AllBlank(s[..|s| - 1]);
    }
  }

  /** A name made of blanks is accepted, and its key is that of the tree itself. */
  lemma BlankName(name: string)
    requires name != "" && forall c | c in name :: IsSpace(c)
    ensures NormalizeRelativePath(name) == Some(name) && Tail(name) == []
  {
    AllBlank(name);
    SplitWord(name, '/');
    assert name[0] in name;
    if name == "." || name == ".." {
      assert false;
    }
    CleanIsFixed(name);
    if |name| > 1 {
      assert name[1] in name;
    }
  }

  /** So "nothing remains after an error" fails for an archive that starts with such a name. */
  lemma StrayFileStays(files: Files, home: Path, parse: Bytes -> Parsed, first: Member, second: Member)
    requires Layered(files) && ArtifactIn(home) in files && TreeIn(home) !in files
    requires files[ArtifactIn(home)] != [] && parse(files[ArtifactIn(home)]) == Archive([first, second])
    requires first.isFile && first.name == "  " && first.size == |first.content| == 0 && !first.broken
    requires second.isFile && NormalizeRelativePath(second.name).Some?
    ensures var (outcome, after) := ExtractArtifact(files, home, parse, Limits(1, 10, 10));
            outcome.LimitExceeded? && TreeIn(home) in after
  {
    BlankName(first.name);
    ArchiveOfTwo(files, home, parse, first, second);
    ClearedReady(files, home);
    var one, two := EntryOf(first).value, EntryOf(second).value;
    SecondIsTooMany(Cleared(files, TreeIn(home)), TreeIn(home), one, two, Limits(1, 10, 10));
  }

  lemma ArchiveOfTwo(files: Files, home: Path, parse: Bytes -> Parsed, first: Member, second: Member)
    requires ArtifactIn(home) in files && files[ArtifactIn(home)] != []
    requires parse(files[ArtifactIn(home)]) == Archive([first, second])
    requires EntryOf(first).Some? && EntryOf(second).Some?
    ensures ArchiveEntries(files, home, parse) == [EntryOf(first).value] + [EntryOf(second).value]
    ensures !Unlistable(files[ArtifactIn(home)], parse)
  {
    TwoEntries(first, second);
  }

  lemma SecondIsTooMany(files: Files, tree: Path, one: Entry, two: Entry, limits: Limits)
    requires Ready(files, tree) && tree !in files && one == Entry([], 0, [], false)
    requires limits.maxFiles == 1 && limits.maxTotal >= 0 && limits.maxFile >= 0
    ensures ExtractEntries(files, tree, [one] + [two], 0, 0, limits) == (LimitExceeded, files[tree := []])
  {
    ExtractNext(files, tree, one, [two], 0, 0, limits);
    assert tree + one.tail == tree;
    assert !Clashes(files, tree);
    assert [two] == [two] + [];
    ExtractNext(files[tree := []], tree, two, [], 1, 0, limits);
  }

  lemma TwoEntries(first: Member, second: Member)
    requires EntryOf(first).Some? && EntryOf(second).Some?
    ensures Entries([first, second]) == [EntryOf(first).value] + [EntryOf(second).value]
  {
    assert [first, second][1..] == [second] && [second][1..] == [];
    assert Entries([second]) == [EntryOf(second).value] + Entries([]);
  }
}
