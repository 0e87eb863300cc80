/** Relative path validation, shared by artifact extraction and static serving. */
module Paths {
  import opened Wrappers
  import opened Text

  /** What (?i)[a-z] matches: the ASCII letters and the four letters that fold into them. */
  predicate DriveLetter(c: char) {
    'a' <= c <= 'z' || 'A' <= c <= 'Z' || c in {'\U{130}', '\U{131}', '\U{17f}', '\U{212a}'}
  }

  predicate WindowsAbsolute(path: string) {
    |path| >= 3 && DriveLetter(path[0]) && path[1] == ':' && (path[2] == '/' || path[2] == '\\')
  }

  /** The component loop of posixpath.normpath. */
  function NormComponents(comps: seq<string>, kept: seq<string>, rooted: bool): seq<string>
    decreases |comps|
  {
    if comps == [] then kept
    else
      var c := comps[0];
      var kept' :=
        if c == "" || c == "." then kept
        else if c != ".." || (!rooted && kept == []) || (kept != [] && kept[|kept| - 1] == "..") then kept + [c]
        else if kept != [] then kept[..|kept| - 1]
        else kept;
      NormComponents(comps[1..], kept', rooted)
  }

  function NormPath(path: string): string {
    if path == "" then "."
    else
      var slashes :=
        if path[0] != '/' then ""
        else if "//" <= path && !("///" <= path) then "//"
        else "/";
      var whole := slashes + Join(NormComponents(Split(path, '/'), [], slashes != ""), '/');
      if whole == "" then "." else whole
  }

  function Trimmed(path: string): string {
    StripSlashes(Replace(path, '\\', '/'))
  }

  function NormalizeRelativePath(path: string): Option<string> {
    if WindowsAbsolute(path) then None
    else
      var slash := Trimmed(path);
      if slash == "" then None
      else
        var parts := Split(slash, '/');
        if "" in parts || ".." in parts then None
        else
          var normalized := NormPath(slash);
          if normalized == "" || normalized == "." then None
          else if "../" <= normalized || normalized == ".." then None
          else if ".." in Split(normalized, '/') then None
          else Some(normalized)
  }

  // ---------- what it means ----------

  function Kept(parts: seq<string>): seq<string> {
    if parts == [] then []
    else (if parts[0] == "." then [] else [parts[0]]) + Kept(parts[1..])
  }

  /** A component that names something inside the directory it is looked up in. */
  predicate Proper(part: string) {
    part != "" && part != "." && part != ".." && '/' !in part
  }

  predicate AllProper(parts: seq<string>) {
    forall p | p in parts :: Proper(p)
  }

  /** The inputs that have a normal form. */
  predicate Acceptable(path: string) {
    && !WindowsAbsolute(path)
    && Trimmed(path) != ""
    && "" !in Split(Trimmed(path), '/') && ".." !in Split(Trimmed(path), '/')
    && Kept(Split(Trimmed(path), '/')) != []
  }

  lemma {:induction false} KeptIsProper(parts: seq<string>)
    requires forall p | p in parts :: p != "" && p != ".." && '/' !in p
    ensures AllProper(Kept(parts))
  {
    if parts != [] {
      assert parts[0] in parts;
      assert forall p | p in parts[1..] :: p in parts;
      KeptIsProper(parts[1..]);
    }
  }

  lemma {:induction false} NormKeeps(comps: seq<string>, kept: seq<string>, rooted: bool)
    requires "" !in comps && ".." !in comps
    ensures NormComponents(comps, kept, rooted) == kept + Kept(comps)
    decreases |comps|
  {
    if comps != [] {
      var kept' := if comps[0] == "." then kept else kept + [comps[0]];
      assert comps[0] in comps;
      NormKeeps(comps[1..], kept', rooted);
      assert kept' + Kept(comps[1..]) == kept + Kept(comps);
    }
  }

  /** A joined path of proper components neither begins nor ends with a slash, and is not a dot path. */
  lemma {:induction false} JoinProper(parts: seq<string>)
    requires parts != [] && AllProper(parts)
    ensures Join(parts, '/') != "" && Join(parts, '/')[0] != '/' && Join(parts, '/')[|Join(parts, '/')| - 1] != '/'
    ensures Separable(parts, '/') && Split(Join(parts, '/'), '/') == parts
  {
    assert parts[0] in parts;
    SplitJoin(parts, '/');
    if |parts| > 1 {
      JoinProper(parts[1..]);
    }
  }

  lemma {:induction false} StripNothing(s: string)
    requires s != "" && s[0] != '/' && s[|s| - 1] != '/'
    ensures StripSlashes(s) == s
  {
  }

  lemma {:induction false} StripRightEnds(s: string)
    ensures StripRight(s, IsSlash) == "" || StripRight(s, IsSlash)[|StripRight(s, IsSlash)| - 1] != '/'
  {
    if s != "" && IsSlash(s[|s| - 1]) {
      StripRightEnds(s[..|s| - 1]);
    }
  }

  lemma {:induction false} StripLeftStarts(s: string)
    ensures StripLeft(s, IsSlash) == "" || StripLeft(s, IsSlash)[0] != '/'
  {
    if s != "" && IsSlash(s[0]) {
      StripLeftStarts(s[1..]);
    }
  }

  lemma TrimmedEnds(path: string)
    requires Trimmed(path) != ""
    ensures Trimmed(path)[0] != '/'
  {
    var replaced := Replace(path, '\\', '/');
    StripLeftStarts(replaced);
    StripRightEnds(StripLeft(replaced, IsSlash));
  }

  /** Exactly the components that are not "." are kept; the three checks after normpath never reject anything. */
  lemma NormalizeExact(path: string)
    ensures NormalizeRelativePath(path)
            == if Acceptable(path) then Some(Join(Kept(Split(Trimmed(path), '/')), '/')) else None
    ensures Acceptable(path) ==> AllProper(Kept(Split(Trimmed(path), '/')))
  {
    var slash := Trimmed(path);
    if slash != "" {
      var parts := Split(slash, '/');
      SplitSeparable(slash, '/');
      TrimmedEnds(path);
      if "" !in parts && ".." !in parts {
        var kept := Kept(parts);
        KeptIsProper(parts);
        NormKeeps(parts, [], false);
        assert [] + kept == kept;
        assert "" + Join(kept, '/') == Join(kept, '/');
        if kept != [] {
          JoinProper(kept);
          DotsAreNotProper(kept);
        }
      }
    }
  }

  lemma DotsAreNotProper(parts: seq<string>)
    requires parts != [] && AllProper(parts) && Separable(parts, '/') && Split(Join(parts, '/'), '/') == parts
    ensures Join(parts, '/') != "." && Join(parts, '/') != ".." && !("../" <= Join(parts, '/'))
    ensures ".." !in Split(Join(parts, '/'), '/')
  {
    var joined := Join(parts, '/');
    assert parts[0] in parts;
    if joined == "." || joined == ".." {
      SplitWord(joined, '/');
      assert false;
    }
    if "../" <= joined {
      SplitConcat("..", joined[3..], '/');
      assert joined == ".." + ['/'] + joined[3..];
      SplitWord("..", '/');
      assert false;
    }
  }

  /** A name as extraction stores it. */
  predicate Clean(name: string) {
    AllProper(Split(name, '/')) && '\\' !in name
  }

  lemma {:induction false} ReplaceGone(s: string)
    ensures '\\' !in Replace(s, '\\', '/')
  {
    if s != "" {
      ReplaceGone(s[1..]);
    }
  }

  lemma {:induction false} ReplaceNothing(s: string)
    requires '\\' !in s
    ensures Replace(s, '\\', '/') == s
  {
    if s != "" {
      ReplaceNothing(s[1..]);
      assert [s[0]] + s[1..] == s;
    }
  }

  lemma {:induction false} StripLeftPart(s: string, p: char -> bool)
    ensures exists n {:trigger s[n..]} :: 0 <= n <= |s| && StripLeft(s, p) == s[n..]
  {
    if s != "" && p(s[0]) {
      StripLeftPart(s[1..], p);
      var n :| 0 <= n <= |s[1..]| && StripLeft(s[1..], p) == s[1..][n..];
      assert s[1..][n..] == s[n + 1..];
    } else {
      assert s[0..] == s;
    }
  }

  lemma {:induction false} JoinChars(parts: seq<string>, c: char)
    requires c in Join(parts, '/') && c != '/'
    ensures exists p :: p in parts && c in p
  {
    if |parts| == 1 {
      assert parts[0] in parts;
    } else if c in parts[0] {
      assert parts[0] in parts;
    } else {
      assert c in Join(parts[1..], '/');
      JoinChars(parts[1..], c);
      var p :| p in parts[1..] && c in p;
      assert p in parts;
    }
  }

  lemma {:induction false} KeptAreParts(parts: seq<string>)
    ensures forall p | p in Kept(parts) :: p in parts
  {
    if parts != [] {
      KeptAreParts(parts[1..]);
    }
  }

  lemma {:induction false} SplitChars(s: string, part: string, c: char)
    requires part in Split(s, '/') && c in part
    ensures c in s
    decreases |s|
  {
    if s != "" {
      var rest := Split(s[1..], '/');
      assert rest[0] in rest;
      if part in rest {
        SplitChars(s[1..], part, c);
      } else if s[0] != '/' && part == [s[0]] + rest[0] {
        if c != s[0] {
          SplitChars(s[1..], rest[0], c);
        }
      }
    }
  }

  /** Whatever extraction accepts becomes a clean name. */
  lemma NormalizedIsClean(path: string)
    requires NormalizeRelativePath(path).Some?
    ensures Clean(NormalizeRelativePath(path).value)
  {
    NormalizeExact(path);
    var slash := Trimmed(path);
    var kept := Kept(Split(slash, '/'));
    JoinProper(kept);
    var name := Join(kept, '/');
    if '\\' in name {
      JoinChars(kept, '\\');
      var p :| p in kept && '\\' in p;
      KeptAreParts(Split(slash, '/'));
      SplitChars(slash, p, '\\');
      StripLeftPart(Replace(path, '\\', '/'), IsSlash);
      ReplaceGone(path);
      assert false;
    }
  }

  lemma {:induction false} KeptAll(parts: seq<string>)
    requires AllProper(parts)
    ensures Kept(parts) == parts
  {
    if parts != [] {
      assert parts[0] in parts;
      KeptAll(parts[1..]);
      assert [parts[0]] + parts[1..] == parts;
    }
  }

  /** Clean names are fixed points, except those that read as a drive letter. */
  lemma CleanIsFixed(name: string)
    requires Clean(name)
    ensures NormalizeRelativePath(name) == if WindowsAbsolute(name) then None else Some(name)
  {
    var parts := Split(name, '/');
    SplitSeparable(name, '/');
    JoinProper(parts);
    ReplaceNothing(name);
    StripNothing(name);
    KeptAll(parts);
    assert parts[0] in parts;
    NormalizeExact(name);
  }

  /** Normalizing twice changes nothing exactly when the result is not a drive-letter path. */
  lemma NormalizeIdempotentIff(path: string)
    requires NormalizeRelativePath(path).Some?
    ensures NormalizeRelativePath(NormalizeRelativePath(path).value) == NormalizeRelativePath(path)
            <==> !WindowsAbsolute(NormalizeRelativePath(path).value)
  {
    NormalizedIsClean(path);
    CleanIsFixed(NormalizeRelativePath(path).value);
  }

  lemma SplitThree(a: string, b: string, c: string)
    requires '/' !in a && '/' !in b && '/' !in c
    ensures Split(a + ['/'] + (b + ['/'] + c), '/') == [a, b, c]
  {
    SplitFirst(a, b + ['/'] + c, '/');
    SplitFirst(b, c, '/');
    SplitWord(c, '/');
  }

  lemma KeptThree(a: string, b: string)
    requires a != "." && b != "."
    ensures Kept([".", a, b]) == [a, b] && Join([a, b], '/') == a + ['/'] + b
  {
    assert [".", a, b][1..] == [a, b] && [a, b][1..] == [b];
    assert Kept([b]) == [b] && Kept([a, b]) == [a] + [b];
    assert Join([b], '/') == b;
  }

  lemma DotFirst(a: string, b: string)
    requires Proper(a) && Proper(b) && '\\' !in a && '\\' !in b
    ensures NormalizeRelativePath("." + ['/'] + (a + ['/'] + b)) == Some(a + ['/'] + b)
  {
    var path := "." + ['/'] + (a + ['/'] + b);
    DotPath(a, b, path);
    SplitThree(".", a, b);
    KeptThree(a, b);
    NormalizeExact(path);
  }

  lemma DotPath(a: string, b: string, path: string)
    requires Proper(a) && Proper(b) && '\\' !in a && '\\' !in b && path == "." + ['/'] + (a + ['/'] + b)
    ensures Replace(path, '\\', '/') == path && StripSlashes(path) == path
    ensures path != "" && path[0] == '.' && !WindowsAbsolute(path)
  {
    assert path[0] == '.' && path[1] == '/' && path[|path| - 1] == b[|b| - 1];
    ReplaceNothing(path);
    StripNothing(path);
  }

  /** A name that is stored but not a fixed point: a drive letter behind a leading dot component. */
  lemma DriveLetterAppears(rest: string)
    requires Proper(rest) && '\\' !in rest
    ensures NormalizeRelativePath("." + ['/'] + ("c:" + ['/'] + rest)) == Some("c:" + ['/'] + rest)
    ensures NormalizeRelativePath("c:" + ['/'] + rest) == None
  {
    DotFirst("c:", rest);
    var name := "c:" + ['/'] + rest;
    assert name[0] == 'c' && name[1] == ':' && name[2] == '/';
  }

  // ---------- serving ----------

  predicate Boundary(c: char) {
    c == '/' || c == '%' || c == '5' || c == 'c' || c == 'C'
  }

  /** '%2e%2e' in any case starts at i. */
  predicate EncodedDots(raw: string, i: nat) {
    && i + 6 <= |raw|
    && raw[i] == '%' && raw[i + 1] == '2' && (raw[i + 2] == 'e' || raw[i + 2] == 'E')
    && raw[i + 3] == '%' && raw[i + 4] == '2' && (raw[i + 5] == 'e' || raw[i + 5] == 'E')
  }

  /** The regular expression _ENCODED_DOTDOT matches with its dots at position i. */
  predicate EncodedDotDotAt(raw: string, i: nat) {
    var width := if EncodedDots(raw, i) then 6 else 2;
    && (EncodedDots(raw, i) || OccursAt(raw, "..", i))
    && (i == 0 || (i <= |raw| && Boundary(raw[i - 1])))
    && (i + width == |raw| || (i + width < |raw| && Boundary(raw[i + width]))
        || (i + width + 1 == |raw| && raw[i + width] == '\n'))
  }

  predicate RawPathHasTraversal(raw: string, unquote: string -> string) {
    || Contains(raw, "..")
    || (exists i {:trigger EncodedDotDotAt(raw, i)} :: 0 <= i <= |raw| && EncodedDotDotAt(raw, i))
    || (exists segment {:trigger unquote(segment)} ::
          segment in Split(Replace(raw, '\\', '/'), '/') && segment != "" && unquote(segment) == "..")
  }

  /** Err stands for the 404 of an invalid path. Percent decoding is the library's unquote. */
  function ValidateServePath(path: string, unquote: string -> string): Result<string, ()> {
    if StripSlashes(path) == "" then Ok("")
    else if RawPathHasTraversal(path, unquote) then Err(())
    else
      match NormalizeRelativePath(unquote(path))
      case None => Err(())
      case Some(rel) => Ok(rel)
  }

  /** Whatever the request and however it is decoded, a path that is served stays inside the tree. */
  lemma ServedPathsAreClean(path: string, unquote: string -> string)
    requires ValidateServePath(path, unquote).Ok?
    ensures ValidateServePath(path, unquote).value == "" || Clean(ValidateServePath(path, unquote).value)
  {
    if StripSlashes(path) != "" {
      NormalizedIsClean(unquote(path));
    }
  }

  lemma NoPercentNoDots(raw: string, i: nat)
    requires '%' !in raw && !Contains(raw, "..") && i <= |raw|
    ensures !EncodedDotDotAt(raw, i)
  {
  }

  lemma NoTraversal(name: string, unquote: string -> string)
    requires Clean(name) && '%' !in name && !Contains(name, "..")
    requires forall s :: '%' !in s ==> unquote(s) == s
    ensures !RawPathHasTraversal(name, unquote)
  {
    ReplaceNothing(name);
    forall i | 0 <= i <= |name|
      ensures !EncodedDotDotAt(name, i)
    {
      NoPercentNoDots(name, i);
    }
    forall segment | segment in Split(name, '/')
      ensures unquote(segment) != ".."
    {
      if '%' in segment {
        SplitChars(name, segment, '%');
      }
      assert Proper(segment);
    }
  }

  lemma CleanIsTrimmed(name: string)
    requires Clean(name)
    ensures StripSlashes(name) == name != ""
  {
    SplitSeparable(name, '/');
    JoinProper(Split(name, '/'));
    StripNothing(name);
  }

  /** A stored name without percent signs is served under itself exactly when it holds no '..' and no drive letter. */
  lemma StoredNameServed(name: string, unquote: string -> string)
    requires Clean(name) && '%' !in name
    requires forall s :: '%' !in s ==> unquote(s) == s
    ensures ValidateServePath(name, unquote) == Ok(name) <==> !Contains(name, "..") && !WindowsAbsolute(name)
  {
    CleanIsTrimmed(name);
    CleanIsFixed(name);
    if !Contains(name, "..") {
      NoTraversal(name, unquote);
    }
  }

  /** No two dots in a row, written out, percent-encoded, or in a part once it is decoded. */
  ghost predicate NoDots(path: string, unquote: string -> string) {
    && !Contains(path, "..") && (forall i | 0 <= i <= |path| :: !EncodedDots(path, i))
    && forall segment {:trigger unquote(segment)} | segment in Split(Replace(path, '\\', '/'), '/') ::
         unquote(segment) != ".."
  }

  /** A request that decodes to a stored name reaches it, unless that is a drive-letter path. */
  lemma EncodedNameServed(path: string, name: string, unquote: string -> string)
    requires Clean(name) && unquote(path) == name && StripSlashes(path) != "" && NoDots(path, unquote)
    ensures ValidateServePath(path, unquote) == Ok(name) <==> !WindowsAbsolute(name)
  {
    CleanIsFixed(name);
    forall i | 0 <= i <= |path|
      ensures !EncodedDotDotAt(path, i)
    {
      assert !OccursAt(path, "..", i) && !EncodedDots(path, i);
    }
  }

  /** Two percent-encoded dots, with a slash or nothing on either side. */
  predicate EncodedDotsAlone(path: string, i: nat) {
    && EncodedDots(path, i) && (i == 0 || path[i - 1] == '/') && (i + 6 == |path| || path[i + 6] == '/')
  }

  /** Two dots in a row are refused, and so is a part that decodes to them or is them percent-encoded. */
  lemma DotsRefused(path: string, unquote: string -> string)
    requires StripSlashes(path) != ""
    requires Contains(path, "..") || (exists i: nat {:trigger EncodedDotsAlone(path, i)} :: EncodedDotsAlone(path, i))
             || exists part :: part in Split(Replace(path, '\\', '/'), '/') && part != "" && unquote(part) == ".."
    ensures ValidateServePath(path, unquote).Err?
  {
    if i: nat :| EncodedDotsAlone(path, i) {
      assert EncodedDotDotAt(path, i);
    }
  }
}
