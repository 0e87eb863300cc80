/** What an archive packs, told by its members: which of them are written, where, and with what content. */
module ArchiveMembers {
  import opened Wrappers
  import opened Paths
  import opened FileTree
  import opened StorageKeys
  import opened Extract

  /** Files with a usable name are written; everything else is passed over. */
  predicate Accepted(m: Member) {
    m.isFile && NormalizeRelativePath(m.name).Some?
  }

  /** The entry writes this member: its content, at the place of its name. */
  predicate Packs(m: Member, e: Entry) {
    && NormalizeRelativePath(m.name).Some? && e.tail == Tail(NormalizeRelativePath(m.name).value)
    && e.content == m.content && e.size == m.size && (e.broken <==> m.broken)
  }

  /** An increasing list of positions: all accepted members, and nothing else. */
  ghost predicate Picks(members: seq<Member>, f: seq<nat>) {
    && Increasing(f) && (forall n | n in f :: n < |members|)
    && forall i {:trigger members[i]} | 0 <= i < |members| :: Accepted(members[i]) <==> i in f
  }

  predicate Increasing(f: seq<nat>) {
    forall m, n | 0 <= m < n < |f| :: f[m] < f[n]
  }

  /** The entries are these members, each with its own place and content. */
  ghost predicate Packed(members: seq<Member>, f: seq<nat>, entries: seq<Entry>) {
    && |f| == |entries|
    && forall n | 0 <= n < |f| :: f[n] < |members| && Packs(members[f[n]], entries[n])
  }

  lemma {:induction false} EntriesSnoc(members: seq<Member>, m: Member)
    ensures Entries(members + [m]) == Entries(members) + match EntryOf(m) case None => [] case Some(e) => [e]
  {
    if members == [] {
      assert [m][1..] == [];
    } else {
      assert (members + [m])[1..] == members[1..] + [m];
      EntriesSnoc(members[1..], m);
    }
  }

  lemma IncreasingSnoc(f: seq<nat>, n: nat)
    requires Increasing(f) && forall m | m in f :: m < n
    ensures Increasing(f + [n])
  {
    assert forall m | 0 <= m < |f| :: f[m] in f;
  }

  lemma PicksSnoc(members: seq<Member>, f: seq<nat>, m: Member)
    requires Picks(members, f)
    ensures Picks(members + [m], if Accepted(m) then f + [|members|] else f)
  {
    IncreasingSnoc(f, |members|);
    var longer, picks := members + [m], if Accepted(m) then f + [|members|] else f;
    forall i | 0 <= i < |longer|
      ensures Accepted(longer[i]) <==> i in picks
    {
      if i < |members| {
        assert longer[i] == members[i];
      }
    }
  }

  lemma PackedSnoc(members: seq<Member>, f: seq<nat>, entries: seq<Entry>, m: Member)
    requires Packed(members, f, entries)
    ensures Packed(members + [m], f, entries)
    ensures EntryOf(m).Some? ==> Packed(members + [m], f + [|members|], entries + [EntryOf(m).value])
  {
    assert (members + [m])[|members|] == m;
    assert EntryOf(m).Some? ==> Packs(m, EntryOf(m).value);
  }

  /** The entries of an archive are its accepted members, in their order. */
  lemma {:induction false} EntriesAreMembers(members: seq<Member>) returns (f: seq<nat>)
    ensures Picks(members, f) && Packed(members, f, Entries(members))
  {
    f := [];
    if members != [] {
      var rest, m := members[..|members| - 1], members[|members| - 1];
      assert members == rest + [m];
      f := EntriesAreMembers(rest);
      PicksSnoc(rest, f, m);
      PackedSnoc(rest, f, Entries(rest), m);
      EntriesSnoc(rest, m);
      f := if Accepted(m) then f + [|rest|] else f;
    }
  }

  /** The member is written to this place in the tree. */
  predicate LeadsTo(m: Member, tail: Path) {
    Accepted(m) && Tail(NormalizeRelativePath(m.name).value) == tail
  }

  /** Member n is the last one that is written to this place. */
  predicate LastMember(members: seq<Member>, n: nat, tail: Path) {
    && n < |members| && LeadsTo(members[n], tail)
    && forall j | n < j < |members| :: !LeadsTo(members[j], tail)
  }

  /** The last member of a place is its last entry. */
  lemma LastMemberIsLastEntry(members: seq<Member>, n: nat, tail: Path) returns (k: nat)
    requires LastMember(members, n, tail)
    ensures var entries := Entries(members);
            && k < |entries| && entries[k].tail == tail && entries[k].content == members[n].content
            && forall j | k < j < |entries| :: entries[j].tail != tail
  {
    var f := EntriesAreMembers(members);
    assert n in f;
    k :| k < |f| && f[k] == n;
    forall j | k < j < |f|
      ensures Entries(members)[j].tail != tail
    {
      assert f[j] in f && Accepted(members[f[j]]);
      assert n < f[j] && !LeadsTo(members[f[j]], tail);
      assert Packs(members[f[j]], Entries(members)[j]);
    }
  }

  /** Some member is written to this place. */
  ghost predicate Written(members: seq<Member>, tail: Path) {
    exists n {:trigger members[n]} :: 0 <= n < |members| && LeadsTo(members[n], tail)
  }

  lemma {:induction false} LastOne(p: nat -> bool, count: nat) returns (n: nat)
    requires exists i: nat :: i < count && p(i)
    ensures n < count && p(n) && forall j: nat | n < j < count :: !p(j)
  {
    n := count - 1;
    if !p(n) {
      n := LastOne(p, count - 1);
    }
  }

  lemma SomeMemberIsLast(members: seq<Member>, tail: Path) returns (n: nat)
    requires Written(members, tail)
    ensures LastMember(members, n, tail)
  {
    var p := (i: nat) => i < |members| && LeadsTo(members[i], tail);
    var i :| 0 <= i < |members| && LeadsTo(members[i], tail);
    assert p(i);
    n := LastOne(p, |members|);
    forall j | n < j < |members|
      ensures !LeadsTo(members[j], tail)
    {
      assert !p(j);
    }
  }

  lemma {:induction false} LastWinsPlaces(entries: seq<Entry>, tail: Path)
    ensures tail in LastWins(entries) <==> exists k :: 0 <= k < |entries| && entries[k].tail == tail
  {
    if entries != [] {
      LastWinsPlaces(entries[..|entries| - 1], tail);
    }
  }

  lemma EntryIsWritten(members: seq<Member>, k: nat)
    requires k < |Entries(members)|
    ensures Written(members, Entries(members)[k].tail)
  {
    var f := EntriesAreMembers(members);
    assert f[k] in f && Packs(members[f[k]], Entries(members)[k]);
    assert LeadsTo(members[f[k]], Entries(members)[k].tail);
  }

  /** The tree of an archive: the places that members are written to, each with the content of the last of them. */
  lemma TreeOfMembers(members: seq<Member>, tail: Path)
    ensures tail in LastWins(Entries(members)) <==> Written(members, tail)
    ensures forall n: nat | LastMember(members, n, tail) ::
              tail in LastWins(Entries(members)) && LastWins(Entries(members))[tail] == members[n].content
  {
    var entries := Entries(members);
    LastWinsPlaces(entries, tail);
    if k :| 0 <= k < |entries| && entries[k].tail == tail {
      EntryIsWritten(members, k);
    }
    if Written(members, tail) {
      var last := SomeMemberIsLast(members, tail);
      var k := LastMemberIsLastEntry(members, last, tail);
      LastEntryWins(entries, k);
    }
    forall n: nat | LastMember(members, n, tail)
      ensures tail in LastWins(entries) && LastWins(entries)[tail] == members[n].content
    {
      var k := LastMemberIsLastEntry(members, n, tail);
      LastEntryWins(entries, k);
    }
  }

  /** An empty upload and one that is no archive write nothing, and any other one its members. */
  lemma ArchiveWrites(files: Files, home: Path, parse: Bytes -> Parsed)
    requires ArtifactIn(home) in files
    ensures var data, entries := files[ArtifactIn(home)], ArchiveEntries(files, home, parse);
            if data != [] && parse(data).Archive? then
              (exists f {:trigger Picks(parse(data).members, f)} ::
                 Picks(parse(data).members, f) && Packed(parse(data).members, f, entries))
            else entries == []
  {
    var data := files[ArtifactIn(home)];
    if data != [] && parse(data).Archive? {
      var f := EntriesAreMembers(parse(data).members);
    }
  }
}
