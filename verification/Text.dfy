/** The string operations the path code is written with: split, join, strip and substring search. */
module Text {
  function Split(s: string, sep: char): (parts: seq<string>)
    ensures |parts| >= 1
  {
    if s == "" then [""]
    else
      var rest := Split(s[1..], sep);
      if s[0] == sep then [""] + rest
      else [[s[0]] + rest[0]] + rest[1..]
  }

  function Join(parts: seq<string>, sep: char): string {
    if parts == [] then ""
    else if |parts| == 1 then parts[0]
    else parts[0] + [sep] + Join(parts[1..], sep)
  }

  /** Drops characters satisfying p from the front. */
  function StripLeft(s: string, p: char -> bool): (r: string)
    ensures |r| <= |s|
  {
    if s != "" && p(s[0]) then StripLeft(s[1..], p) else s
  }

  function StripRight(s: string, p: char -> bool): (r: string)
    ensures r <= s
  {
    if s != "" && p(s[|s| - 1]) then StripRight(s[..|s| - 1], p) else s
  }

  function Strip(s: string, p: char -> bool): string {
    StripRight(StripLeft(s, p), p)
  }

  function IsSlash(c: char): bool {
    c == '/'
  }

  function StripSlashes(s: string): string {
    Strip(s, IsSlash)
  }

  /** The characters that str.strip() removes. */
  function IsSpace(c: char): bool {
    || '\t' <= c <= '\r' || '\U{1c}' <= c <= ' ' || c == '\U{85}' || c == '\U{a0}'
    || c == '\U{1680}' || '\U{2000}' <= c <= '\U{200a}' || c == '\U{2028}' || c == '\U{2029}'
    || c == '\U{202f}' || c == '\U{205f}' || c == '\U{3000}'
  }

  function Replace(s: string, a: char, b: char): (r: string)
    ensures |r| == |s|
  {
    if s == "" then "" else [if s[0] == a then b else s[0]] + Replace(s[1..], a, b)
  }

  /** part occurs in s starting at position i. */
  predicate OccursAt(s: string, part: string, i: nat) {
    i + |part| <= |s| && s[i..i + |part|] == part
  }

  predicate Contains(s: string, part: string) {
    exists i {:trigger OccursAt(s, part, i)} :: 0 <= i <= |s| && OccursAt(s, part, i)
  }

  /** No part holds the separator, so joining loses nothing. */
  predicate Separable(parts: seq<string>, sep: char) {
    |parts| >= 1 && forall p | p in parts :: sep !in p
  }

  lemma JoinHead(first: string, rest: seq<string>, sep: char)
    requires |rest| >= 1
    ensures Join([first] + rest, sep) == first + [sep] + Join(rest, sep)
    ensures Join([first + rest[0]] + rest[1..], sep) == first + Join(rest, sep)
  {
    assert ([first] + rest)[1..] == rest;
    assert ([first + rest[0]] + rest[1..])[1..] == rest[1..];
  }

  lemma SeparableHead(c: char, rest: seq<string>, sep: char)
    requires Separable(rest, sep)
    ensures Separable([""] + rest, sep)
    ensures c != sep ==> Separable([[c] + rest[0]] + rest[1..], sep)
  {
    assert forall p | p in rest[1..] :: p in rest;
    assert sep !in rest[0];
  }

  lemma {:induction false} SplitSeparable(s: string, sep: char)
    ensures Separable(Split(s, sep), sep)
    ensures Join(Split(s, sep), sep) == s
  {
    if s != "" {
      SplitSeparable(s[1..], sep);
      var rest := Split(s[1..], sep);
      SeparableHead(s[0], rest, sep);
      JoinHead(if s[0] == sep then "" else [s[0]], rest, sep);
    }
  }

  lemma {:induction false} SplitWord(s: string, sep: char)
    requires sep !in s
    ensures Split(s, sep) == [s]
  {
    if s != "" {
      SplitWord(s[1..], sep);
      assert [s[0]] + s[1..] == s;
    }
  }

  /** A first word without the separator is the first part. */
  lemma SplitFirst(word: string, rest: string, sep: char)
    requires sep !in word
    ensures Split(word + [sep] + rest, sep) == [word] + Split(rest, sep)
  {
    SplitConcat(word, rest, sep);
    SplitWord(word, sep);
  }

  lemma {:induction false} SplitConcat(a: string, b: string, sep: char)
    ensures Split(a + [sep] + b, sep) == Split(a, sep) + Split(b, sep)
  {
    var whole, tail := a + [sep] + b, Split(b, sep);
    if a == "" {
      assert whole[1..] == b;
    } else {
      var rest := Split(a[1..], sep);
      assert whole[1..] == a[1..] + [sep] + b;
      SplitConcat(a[1..], b, sep);
      SplitStep(whole, sep, rest + tail);
      SplitStep(a, sep, rest);
      Glue("", [a[0]] + rest[0], rest, tail);
    }
  }

  lemma Glue(blank: string, first: string, rest: seq<string>, tail: seq<string>)
    requires |rest| >= 1
    ensures (rest + tail)[0] == rest[0]
    ensures [blank] + (rest + tail) == [blank] + rest + tail
    ensures [first] + (rest + tail)[1..] == [first] + rest[1..] + tail
  {
    assert (rest + tail)[1..] == rest[1..] + tail;
  }

  lemma SplitStep(s: string, sep: char, rest: seq<string>)
    requires s != "" && Split(s[1..], sep) == rest
    ensures Split(s, sep) == if s[0] == sep then [""] + rest else [[s[0]] + rest[0]] + rest[1..]
  {
  }

  lemma {:induction false} SplitJoin(parts: seq<string>, sep: char)
    requires Separable(parts, sep)
    ensures Split(Join(parts, sep), sep) == parts
  {
    assert parts[0] in parts;
    SplitWord(parts[0], sep);
    if |parts| > 1 {
      assert forall p | p in parts[1..] :: p in parts;
      SplitJoin(parts[1..], sep);
      SplitConcat(parts[0], Join(parts[1..], sep), sep);
      assert [parts[0]] + parts[1..] == parts;
    } else {
      assert parts == [parts[0]];
    }
  }
}
