/** Linking a sidecar to the frame it belongs to: a LIKE pattern made from an arbitrary path. */
module Sidecars {
  import opened Options
  import opened SqlText

  // ---- LIKE ----

  /** The server's LIKE, with its default escape character; fold is the column's collation. */
  predicate Likes(fold: char -> char, p: string, t: string)
    decreases |p| + |t|
  {
    if p == "" then t == ""
    else if p[0] == '%' then Likes(fold, p[1..], t) || (t != "" && Likes(fold, p, t[1..]))
    else if t == "" then false
    else if p[0] == '_' then Likes(fold, p[1..], t[1..])
    else if p[0] == '\\' && |p| > 1 then fold(p[1]) == fold(t[0]) && Likes(fold, p[2..], t[1..])
    else fold(p[0]) == fold(t[0]) && Likes(fold, p[1..], t[1..])
  }

  predicate IsWildcard(c: char) {
    c == '\\' || c == '%' || c == '_'
  }

  function Guarded(s: string): string {
    if s == "" then "" else Guarded(s[..|s| - 1]) + (if IsWildcard(s[|s| - 1]) then "\\" else "") + [s[|s| - 1]]
  }

  /** escape_like: a backslash before each wildcard, character by character. */
  method EscapeLike(s: string) returns (out: string)
    ensures out == Guarded(s)
  {
    out := "";
    var i := 0;
    while i < |s|
      invariant 0 <= i <= |s|
      invariant out == Guarded(s[..i])
    {
      assert s[..i + 1][..i] == s[..i];
      if IsWildcard(s[i]) {
        out := out + "\\";
      }
      out := out + [s[i]];
      i := i + 1;
    }
    assert s[..i] == s;
  }

  lemma {:induction false} GuardedHead(s: string)
    requires s != ""
    ensures Guarded(s) == (if IsWildcard(s[0]) then "\\" else "") + [s[0]] + Guarded(s[1..])
  {
    if |s| == 1 {
      assert s[..0] == "" && s[1..] == "";
    } else {
      var front := s[..|s| - 1];
      GuardedHead(front);
      assert s[1..][..|s| - 2] == front[1..];
    }
  }

  /** s starts with front, as the collation compares. */
  predicate StartsWith(fold: char -> char, t: string, front: string) {
    |t| >= |front| && forall i :: 0 <= i < |front| ==> fold(t[i]) == fold(front[i])
  }

  /** A percent sign at the end matches everything. */
  lemma {:induction false} AnythingMatches(fold: char -> char, t: string)
    ensures Likes(fold, "%", t)
  {
    if t == "" {
      assert Likes(fold, "%"[1..], t);
    } else {
      AnythingMatches(fold, t[1..]);
    }
  }

  lemma DotThenAnything(fold: char -> char, t: string)
    ensures Likes(fold, ".%", t) <==> StartsWith(fold, t, ".")
  {
    if t != "" {
      assert ".%"[1..] == "%";
      AnythingMatches(fold, t[1..]);
    }
  }

  /** A guarded character matches itself alone. */
  lemma OneGuarded(fold: char -> char, c: char, p: string, t: string)
    ensures Likes(fold, (if IsWildcard(c) then "\\" else "") + [c] + p, t)
       <==> t != "" && fold(c) == fold(t[0]) && Likes(fold, p, t[1..])
  {
    var q := (if IsWildcard(c) then "\\" else "") + [c] + p;
    if IsWildcard(c) {
      assert q[0] == '\\' && q[1] == c && q[2..] == p;
    } else {
      assert q[0] == c && q[1..] == p;
    }
  }

  /** Whatever characters a path has, its guarded pattern matches exactly the texts that go on from
      it with a point. */
  lemma {:induction false} PatternExact(fold: char -> char, s: string, t: string)
    ensures Likes(fold, Guarded(s) + ".%", t) <==> StartsWith(fold, t, s + ".")
    decreases |s|
  {
    hide Likes, Guarded, IsWildcard;
    if s == "" {
      NothingGuarded();
      assert "" + ".%" == ".%" && s + "." == ".";
      DotThenAnything(fold, t);
    } else {
      var p := Guarded(s[1..]) + ".%";
      GuardedHead(s);
      assert Guarded(s) + ".%" == (if IsWildcard(s[0]) then "\\" else "") + [s[0]] + p;
      OneGuarded(fold, s[0], p, t);
      var front, rest := s + ".", s[1..] + ".";
      assert front == [s[0]] + rest;
      if t != "" {
        PatternExact(fold, s[1..], t[1..]);
        StartsTail(fold, t, s[0], rest);
      }
    }
  }

  lemma NothingGuarded()
    ensures Guarded("") == ""
  {
  }

  lemma StartsTail(fold: char -> char, t: string, c: char, rest: string)
    requires t != ""
    ensures StartsWith(fold, t, [c] + rest) <==> fold(t[0]) == fold(c) && StartsWith(fold, t[1..], rest)
  {
    var front := [c] + rest;
    assert front[0] == c;
    if StartsWith(fold, t, front) {
      assert forall i :: 0 <= i < |rest| ==> rest[i] == front[i + 1] && t[1..][i] == t[i + 1];
    }
    if fold(t[0]) == fold(c) && StartsWith(fold, t[1..], rest) {
      forall i | 0 <= i < |front|
        ensures fold(t[i]) == fold(front[i])
      {
        if i > 0 {
          assert front[i] == rest[i - 1] && t[i] == t[1..][i - 1];
        }
      }
    }
  }

  // ---- The sidecar query ----

  /** Where the last c is. */
  function LastIndex(s: string, c: char): (r: Option<nat>)
    ensures r.Some? ==> r.value < |s| && s[r.value] == c && forall i :: r.value < i < |s| ==> s[i] != c
    ensures r.None? ==> forall i :: 0 <= i < |s| ==> s[i] != c
  {
    if s == "" then None
    else if s[|s| - 1] == c then Some(|s| - 1)
    else LastIndex(s[..|s| - 1], c)
  }

  function DirOf(path: string): string {
    match LastIndex(path, '/')
    case None => ""
    case Some(i) => path[..i + 1]
  }

  function StemOf(filename: string): string {
    match LastIndex(filename, '.')
    case None => filename
    case Some(i) => filename[..i]
  }

  /** The literal after LIKE, between its quotes. */
  function LikeLiteral(path: string, filename: string): string {
    Escape(Guarded(DirOf(path) + StemOf(filename))) + ".%"
  }

  /** The pattern the server decodes from the statement selects exactly the files of the sidecar's
      directory whose names are its stem, a point and more. */
  lemma SidecarPattern(fold: char -> char, path: string, filename: string, other: string)
    ensures var r := ScanString(LikeLiteral(path, filename) + "'" + " ORDER BY fr.id LIMIT 1");
            && r.Closed? && r.rest == " ORDER BY fr.id LIMIT 1"
            && (Likes(fold, r.body, other) <==> StartsWith(fold, other, DirOf(path) + StemOf(filename) + "."))
  {
    hide Escape, ScanString, Guarded, Likes, DirOf, StemOf;
    var prefix := DirOf(path) + StemOf(filename);
    var rest := " ORDER BY fr.id LIMIT 1";
    NoEscape();
    EscapeConcat(Guarded(prefix), ".%");
    ScanEscaped(Guarded(prefix) + ".%", rest);
    PatternExact(fold, prefix, other);
  }

  /** So a sidecar finds the frame beside it that shares its stem. */
  lemma SharedStemFound(fold: char -> char, dir: string, stem: string, ext: string, ext2: string)
    requires '/' !in stem && '/' !in ext && '.' !in ext && (dir == "" || dir[|dir| - 1] == '/')
    ensures DirOf(dir + stem + "." + ext) == dir && StemOf(stem + "." + ext) == stem
    ensures var r := ScanString(LikeLiteral(dir + stem + "." + ext, stem + "." + ext) + "'"
        + " ORDER BY fr.id LIMIT 1");
            r.Closed? && Likes(fold, r.body, dir + stem + "." + ext2)
  {
    var path, filename, other := dir + stem + "." + ext, stem + "." + ext, dir + stem + "." + ext2;
    LastBefore(filename, |stem|, '.');
    assert filename[..|stem|] == stem;
    if dir == "" {
      assert '/' !in path;
    } else {
      LastBefore(path, |dir| - 1, '/');
      assert path[..|dir|] == dir;
    }
    SidecarPattern(fold, path, filename, other);
    hide ScanString, Likes, LikeLiteral, DirOf, StemOf;
    assert other[..|dir + stem + "."|] == dir + stem + ".";
  }

  lemma LastBefore(s: string, k: nat, c: char)
    requires k < |s| && s[k] == c && forall i :: k < i < |s| ==> s[i] != c
    ensures LastIndex(s, c) == Some(k)
  {
  }
}
