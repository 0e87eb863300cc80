/** Which stored file answers a request: the one of its name, a directory's index, the 404 page, or the root index. */
module Pages {
  import opened Wrappers
  import opened Text
  import opened Paths
  import opened FileTree
  import opened StorageKeys
  import opened Extract
  import opened Serve

  /** Nothing is stored under the name of the index, nor below it. */
  predicate NoIndex(content: Files) {
    forall q | q in content :: !([INDEX] <= q)
  }

  /** The file at a place, or what to answer without it. */
  function FileOr(content: Files, place: Path, name: string, otherwise: Page): Page {
    if place in content then File(name, content[place]) else otherwise
  }

  /** A name that stays as it is when its key is stripped. */
  lemma OneWord(name: string)
    requires Proper(name) && '\\' !in name && !IsSpace(name[|name| - 1])
    ensures Clean(name) && Tail(name) == [name] && !Awkward(Tail(name))
  {
    SplitWord(name, '/');
    assert name[|name| - 1] in name;
    StripLast(name, IsSpace);
    StripLast(name, IsSlash);
  }

  lemma IndexName()
    ensures Clean(INDEX) && Tail(INDEX) == [INDEX] && !Awkward([INDEX])
  {
    assert Proper(INDEX);
    assert '\\' !in INDEX;
    assert !IsSpace(INDEX[9]);
    OneWord(INDEX);
  }

  lemma NotFoundName()
    ensures Clean(NOT_FOUND) && Tail(NOT_FOUND) == [NOT_FOUND] && !Awkward([NOT_FOUND])
  {
    assert Proper(NOT_FOUND);
    assert '\\' !in NOT_FOUND;
    assert !IsSpace(NOT_FOUND[7]);
    OneWord(NOT_FOUND);
  }

  lemma OpenIndex(content: Files)
    ensures Open(content, INDEX) == if [INDEX] in content then Some(content[[INDEX]]) else None
    ensures Open(content, NOT_FOUND) == if [NOT_FOUND] in content then Some(content[[NOT_FOUND]]) else None
  {
    IndexName();
    NotFoundName();
    CleanNameOpens(content, INDEX);
    CleanNameOpens(content, NOT_FOUND);
  }

  lemma PartsInside(name: string)
    ensures Split(name + ['/'] + INDEX, '/') == Split(name, '/') + [INDEX]
  {
    SplitConcat(name, INDEX, '/');
    SplitWord(INDEX, '/');
  }

  lemma CleanJoined(a: string, b: string)
    requires Clean(a) && Clean(b)
    ensures Clean(a + ['/'] + b)
  {
    SplitConcat(a, b, '/');
  }

  lemma TailOfPlain(name: string)
    requires name != "" && !IsSpace(name[|name| - 1]) && name[|name| - 1] != '/'
    ensures Tail(name) == Split(name, '/')
  {
    StripLast(name, IsSpace);
    StripLast(name, IsSlash);
  }

  lemma IndexInside(name: string)
    requires Clean(name)
    ensures Clean(name + ['/'] + INDEX) && Tail(name + ['/'] + INDEX) == Split(name, '/') + [INDEX]
    ensures !Awkward(Split(name, '/') + [INDEX])
  {
    var whole := name + ['/'] + INDEX;
    IndexName();
    CleanJoined(name, INDEX);
    PartsInside(name);
    assert whole[|whole| - 1] == 'l';
    TailOfPlain(whole);
  }

  lemma NoSlashAtEnd(name: string)
    requires Clean(name)
    ensures name != "" && name[|name| - 1] != '/' && StripRight(name, IsSlash) == name
  {
    SplitSeparable(name, '/');
    JoinProper(Split(name, '/'));
    StripLast(name, IsSlash);
  }

  lemma OpenInside(content: Files, name: string)
    requires Clean(name)
    ensures var inside := Split(name, '/') + [INDEX];
            Open(content, name + ['/'] + INDEX) == if inside in content then Some(content[inside]) else None
  {
    IndexInside(name);
    CleanNameOpens(content, name + ['/'] + INDEX);
  }

  lemma TryFirst(content: Files, first: string, rest: seq<string>)
    ensures FirstOpen(content, [first] + rest)
            == if Open(content, first).Some? then Some((first, Open(content, first).value))
               else FirstOpen(content, rest)
  {
    assert ([first] + rest)[1..] == rest;
  }

  lemma TryTwo(content: Files, first: string, second: string)
    ensures FirstOpen(content, [first, second])
            == if Open(content, first).Some? then Some((first, Open(content, first).value))
               else if Open(content, second).Some? then Some((second, Open(content, second).value))
               else None
  {
    assert [first, second] == [first] + [second] && [second] == [second] + [];
    TryFirst(content, first, [second]);
    TryFirst(content, second, []);
  }

  /** An asset is answered with the file of its name or not at all. */
  lemma AssetAnswered(content: Files, path: string, name: string, unquote: string -> string)
    requires ValidateServePath(path, unquote) == Ok(name) && name != "" && LooksLikeStaticAsset(name)
    requires !Awkward(Tail(name))
    ensures Answer(content, path, unquote) == FileOr(content, Tail(name), name, NotFound)
  {
    ServedPathsAreClean(path, unquote);
    CleanNameOpens(content, name);
  }

  /** The pages tried for a name that is no asset. */
  lemma PageCandidates(name: string)
    requires Clean(name)
    ensures name != ""
    ensures Candidates(name, false) == [name] + ([name + ['/'] + INDEX] + [NOT_FOUND, INDEX])
  {
    NoSlashAtEnd(name);
  }

  /** Any other path is answered with the file of its name, else the index of that directory, else the 404 page, else
      the index of the site; and a site without an index answers none of them. */
  lemma PageAnswered(content: Files, path: string, name: string, unquote: string -> string)
    requires ValidateServePath(path, unquote) == Ok(name) && name != "" && !LooksLikeStaticAsset(name)
    requires !Awkward(Tail(name))
    ensures Answer(content, path, unquote)
            == if NoIndex(content) then UnavailableSite
               else FileOr(content, Tail(name), name,
                      FileOr(content, Split(name, '/') + [INDEX], name + ['/'] + INDEX,
                        FileOr(content, [NOT_FOUND], NOT_FOUND,
                          FileOr(content, [INDEX], INDEX, NotFound))))
  {
    ServedPathsAreClean(path, unquote);
    CleanNameOpens(content, name);
    OpenInside(content, name);
    OpenIndex(content);
    PageCandidates(name);
    TryFirst(content, name, [name + ['/'] + INDEX] + [NOT_FOUND, INDEX]);
    TryFirst(content, name + ['/'] + INDEX, [NOT_FOUND, INDEX]);
    TryTwo(content, NOT_FOUND, INDEX);
  }

  /** The root of a site is answered with its index, or with the 404 page when the index is a directory. */
  lemma RootAnswered(content: Files, path: string, unquote: string -> string)
    requires StripSlashes(path) == ""
    ensures Answer(content, path, unquote)
            == if NoIndex(content) then UnavailableSite
               else FileOr(content, [INDEX], INDEX, FileOr(content, [NOT_FOUND], NOT_FOUND, NotFound))
  {
    OpenIndex(content);
    assert "" + INDEX == INDEX;
    assert Candidates("", LooksLikeStaticAsset("")) == [INDEX] + [NOT_FOUND, INDEX];
    TryFirst(content, INDEX, [NOT_FOUND, INDEX]);
    TryTwo(content, NOT_FOUND, INDEX);
  }

  /** A name is an asset by the extension of its last part, in any directory and in any case. */
  lemma AssetByExtension(dir: string, stem: string, ext: string)
    requires '/' !in stem && '/' !in ext && '.' !in ext
    ensures LooksLikeStaticAsset(dir + ['/'] + (stem + ['.'] + ext)) <==> AssetExtension(Lower(ext))
    ensures LooksLikeStaticAsset(stem + ['.'] + ext) <==> AssetExtension(Lower(ext))
  {
    var file := stem + ['.'] + ext;
    SplitConcat(dir, file, '/');
    SplitWord(file, '/');
    SplitConcat(stem, ext, '.');
    SplitWord(ext, '.');
  }

  /** A name without a dot is no asset. */
  lemma NoExtension(dir: string, name: string)
    requires '/' !in name && '.' !in name
    ensures !LooksLikeStaticAsset(dir + ['/'] + name) && !LooksLikeStaticAsset(name)
  {
    SplitConcat(dir, name, '/');
    SplitWord(name, '/');
    SplitWord(name, '.');
  }
}
