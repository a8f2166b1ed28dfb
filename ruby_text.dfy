/**
 * The two pieces of Ruby's core library that the include processor leans on:
 * `String#lines` with the default separator "\n", and `File.dirname` on
 * POSIX-style, `/`-separated paths.
 */
module RubyText {
  import opened Wrappers

  // ---------------------------------------------------------------------
  // String#lines
  // ---------------------------------------------------------------------

  /** The string obtained by joining `pieces` end to end. */
  function Concat(pieces: seq<string>): string
  {
    if pieces == [] then [] else pieces[0] + Concat(pieces[1..])
  }

  /** A line as `String#lines` produces it: not empty, and a "\n" can only be its last character. */
  predicate IsLine(line: string)
  {
    line != [] && forall k :: 0 <= k < |line| - 1 ==> line[k] != '\n'
  }

  /**
   * `pieces` is a split into lines: every piece is a line, and every piece
   * except the last one ends in "\n".
   */
  predicate WellSplit(pieces: seq<string>)
  {
    && (forall i :: 0 <= i < |pieces| ==> IsLine(pieces[i]))
    && (forall i :: 0 <= i < |pieces| - 1 ==> pieces[i][|pieces[i]| - 1] == '\n')
  }

  /**
   * `s.lines`: the pieces of `s`, each running up to and including a "\n",
   * the last one possibly without it. Built one character at a time: a "\n"
   * closes a line of its own, any other character opens the first line of
   * the rest.
   */
  function Lines(s: string): (pieces: seq<string>)
    ensures Concat(pieces) == s
    ensures WellSplit(pieces)
    ensures s == [] <==> pieces == []
  {
    if s == [] then []
    else
      var rest := Lines(s[1..]);
      if s[0] == '\n' || rest == [] then [[s[0]]] + rest
      else [[s[0]] + rest[0]] + rest[1..]
  }

  /**
   * The split is unique: any sequence of lines, all but the last ending in
   * "\n", that joins to `s` is `s.lines`.
   */
  lemma {:induction false} LinesUnique(s: string, pieces: seq<string>)
    requires WellSplit(pieces) && Concat(pieces) == s
    ensures Lines(s) == pieces
    decreases |s|
  {
    ConcatOfLinesEmpty(pieces);
    if s != [] {
      assert pieces != [];
      var p0 := pieces[0];
      assert s == p0 + Concat(pieces[1..]);
      assert s[0] == p0[0];
      if |p0| == 1 {
        var tail := pieces[1..];
        assert WellSplit(tail) by { WellSplitTail(pieces); }
        assert s[1..] == Concat(tail);
        LinesUnique(s[1..], tail);
        assert p0 == [s[0]];
        if s[0] != '\n' {
          assert |pieces| == 1;
          assert tail == [];
        }
        assert pieces == [[s[0]]] + tail;
      } else {
        assert s[0] != '\n';
        var shorter := [p0[1..]] + pieces[1..];
        assert WellSplit(shorter) by { WellSplitDropFirstChar(pieces); }
        assert Concat(shorter) == p0[1..] + Concat(pieces[1..]);
        assert s[1..] == Concat(shorter);
        LinesUnique(s[1..], shorter);
        assert Lines(s[1..]) != [];
        assert p0 == [s[0]] + p0[1..];
        assert pieces == [[s[0]] + shorter[0]] + shorter[1..];
      }
    }
  }

  /** The number of pieces is the number of "\n", plus one for a last line without it. */
  lemma {:induction false} LinesCount(s: string)
    ensures |Lines(s)| == NewlineCount(s) + (if s != [] && s[|s| - 1] != '\n' then 1 else 0)
    decreases |s|
  {
    if s != [] {
      LinesCount(s[1..]);
      if |s| > 1 {
        assert s[1..][|s| - 2] == s[|s| - 1];
      }
    }
  }

  /** How many "\n" characters `s` holds. */
  function NewlineCount(s: string): nat
  {
    if s == [] then 0 else (if s[0] == '\n' then 1 else 0) + NewlineCount(s[1..])
  }

  /** Lines are never empty, so only no lines join to the empty string. */
  lemma ConcatOfLinesEmpty(pieces: seq<string>)
    requires WellSplit(pieces)
    ensures Concat(pieces) == [] ==> pieces == []
  {
  }

  lemma WellSplitTail(pieces: seq<string>)
    requires WellSplit(pieces) && pieces != []
    ensures WellSplit(pieces[1..])
  {
  }

  lemma WellSplitDropFirstChar(pieces: seq<string>)
    requires WellSplit(pieces) && pieces != [] && |pieces[0]| > 1
    ensures WellSplit([pieces[0][1..]] + pieces[1..])
  {
  }

  // ---------------------------------------------------------------------
  // File.dirname
  // ---------------------------------------------------------------------

  /** Every character of `s` is a `/`. */
  predicate AllSlashes(s: string)
  {
    forall k :: 0 <= k < |s| ==> s[k] == '/'
  }

  /** No character of `s` is a `/`. */
  predicate NoSlash(s: string)
  {
    forall k :: 0 <= k < |s| ==> s[k] != '/'
  }

  /** `s` with its trailing run of `/` removed. */
  function TrimTrailingSlashes(s: string): (r: string)
    ensures |r| <= |s| && r == s[..|r|]
    ensures AllSlashes(s[|r|..])
    ensures r == [] || r[|r| - 1] != '/'
  {
    if s != [] && s[|s| - 1] == '/' then TrimTrailingSlashes(s[..|s| - 1]) else s
  }

  /** The index of the last `/` in `s`, if there is one. */
  function LastSlash(s: string): (r: Option<nat>)
    ensures r.None? ==> NoSlash(s)
    ensures r.Some? ==> r.value < |s| && s[r.value] == '/' && NoSlash(s[r.value + 1..])
  {
    if s == [] then None
    else if s[|s| - 1] == '/' then Some(|s| - 1)
    else LastSlash(s[..|s| - 1])
  }

  /** `s` with a leading run of two or more `/` reduced to a single one. */
  function CollapseLeadingSlashes(s: string): (r: string)
    ensures |r| <= |s| && r == s[|s| - |r|..]
    ensures |r| < 2 || r[0] != '/' || r[1] != '/'
    ensures s != [] ==> r != [] && (r[0] == '/' <==> s[0] == '/')
  {
    if |s| >= 2 && s[0] == '/' && s[1] == '/' then CollapseLeadingSlashes(s[1..]) else s
  }

  /**
   * `File.dirname(path)` for `/`-separated paths: trailing separators are
   * ignored, the last component and the separators in front of it are
   * dropped, a path without a separator gives ".", and a path whose only
   * separators lead it gives "/". Several leading separators count as one.
   */
  function Dirname(path: string): (dir: string)
    ensures dir != []
    ensures NoSlash(path) ==> dir == "."
    ensures path != [] && path[0] == '/' ==> dir[0] == '/'
  {
    var trimmed := TrimTrailingSlashes(path);
    if trimmed == [] then (if path == [] then "." else "/") else TrimmedDirname(trimmed)
  }

  /** `Dirname` of a path that has something left once trailing separators are trimmed. */
  function TrimmedDirname(trimmed: string): (dir: string)
    requires trimmed != []
    ensures dir != []
    ensures NoSlash(trimmed) ==> dir == "."
    ensures trimmed[0] == '/' ==> dir[0] == '/'
  {
    match LastSlash(trimmed)
    case None => "."
    case Some(i) =>
      var head := TrimTrailingSlashes(trimmed[..i]);
      if head == [] then "/" else CollapseLeadingSlashes(head)
  }

  /** `TrimTrailingSlashes` is determined by what its contract says. */
  lemma TrimTrailingSlashesUnique(s: string, r: string)
    requires |r| <= |s| && r == s[..|r|] && AllSlashes(s[|r|..])
    requires r == [] || r[|r| - 1] != '/'
    ensures TrimTrailingSlashes(s) == r
  {
  }

  /** `LastSlash` is determined by what its contract says. */
  lemma LastSlashUnique(s: string, i: nat)
    requires i < |s| && s[i] == '/' && NoSlash(s[i + 1..])
    ensures LastSlash(s) == Some(i)
  {
  }

  /** Trimming a path with one more leading character. */
  lemma {:induction false} TrimTrailingSlashesCons(c: char, x: string)
    ensures TrimTrailingSlashes([c] + x) ==
      if c == '/' && TrimTrailingSlashes(x) == [] then [] else [c] + TrimTrailingSlashes(x)
    decreases |x|
  {
    if x != [] && x[|x| - 1] == '/' {
      assert ([c] + x)[..|x|] == [c] + x[..|x| - 1];
      TrimTrailingSlashesCons(c, x[..|x| - 1]);
    }
  }

  /** The last separator of a path with one more leading character. */
  lemma {:induction false} LastSlashCons(c: char, x: string)
    ensures LastSlash([c] + x) ==
      match LastSlash(x)
      case Some(i) => Some(i + 1)
      case None => if c == '/' then Some(0) else None
    decreases |x|
  {
    if x != [] && x[|x| - 1] != '/' {
      assert ([c] + x)[..|x|] == [c] + x[..|x| - 1];
      LastSlashCons(c, x[..|x| - 1]);
    }
  }

  /**
   * Joining a directory `dir`, a run of separators and a base name (plus any
   * trailing separators) and taking `Dirname` gives back `dir`, as long as
   * `dir` does not end in a separator and does not open with two of them.
   */
  lemma DirnameOfJoin(dir: string, sep: string, base: string, tail: string)
    requires dir != [] && dir[|dir| - 1] != '/'
    requires |dir| < 2 || dir[0] != '/' || dir[1] != '/'
    requires sep != [] && AllSlashes(sep)
    requires base != [] && NoSlash(base)
    requires AllSlashes(tail)
    ensures Dirname(dir + sep + base + tail) == dir
  {
    var path := dir + sep + base + tail;
    var stem := dir + sep + base;
    assert path[|stem|..] == tail;
    assert stem == path[..|stem|];
    TrimTrailingSlashesUnique(path, stem);
    var i := |dir| + |sep| - 1;
    assert stem[i + 1..] == base;
    LastSlashUnique(stem, i);
    assert stem[..i] == dir + sep[..|sep| - 1];
    assert (dir + sep[..|sep| - 1])[|dir|..] == sep[..|sep| - 1];
    TrimTrailingSlashesUnique(stem[..i], dir);
  }

  /** One more trailing separator does not change `Dirname`. */
  lemma DirnameTrailingSlash(path: string)
    requires path != []
    ensures Dirname(path + "/") == Dirname(path)
  {
  }

  /** A path made of separators only is the root, "/". */
  lemma DirnameOfRoot(path: string)
    requires path != [] && AllSlashes(path)
    ensures Dirname(path) == "/"
  {
  }

  /** A file directly under the root has directory "/". */
  lemma DirnameTopLevel(base: string)
    requires base != [] && NoSlash(base)
    ensures Dirname("/" + base) == "/"
  {
    var p := "/" + base;
    TrimTrailingSlashesUnique(p, p);
    LastSlashUnique(p, 0);
    assert p[..0] == [];
  }

  /** Two leading separators mean the same as one. */
  lemma DirnameLeadingSlashes(path: string)
    ensures Dirname("//" + path) == Dirname("/" + path)
  {
    var one := "/" + path;
    var two := "/" + one;
    assert two == "//" + path by {
      assert "//" == "/" + "/";
    }
    TrimTrailingSlashesCons('/', one);
    var t := TrimTrailingSlashes(one);
    if t != [] {
      TrimmedDirnameLeadingSlash(t);
    }
  }

  /** One more leading separator in front of a trimmed path that already has one. */
  lemma TrimmedDirnameLeadingSlash(t: string)
    requires t != [] && t[0] == '/'
    ensures TrimmedDirname("/" + t) == TrimmedDirname(t)
  {
    LastSlashCons('/', t);
    var i := LastSlash(t).value;
    assert LastSlash("/" + t) == Some(i + 1);
    var prefix := ("/" + t)[..i + 1];
    assert prefix == "/" + t[..i];
    TrimTrailingSlashesCons('/', t[..i]);
    var head := TrimTrailingSlashes(t[..i]);
    if head == [] {
      assert TrimTrailingSlashes(prefix) == [];
    } else {
      assert TrimTrailingSlashes(prefix) == "/" + head;
      CollapseExtraSlash(head);
    }
  }

  /** A separator in front of a leading separator is collapsed away. */
  lemma CollapseExtraSlash(head: string)
    requires head != [] && head[0] == '/'
    ensures CollapseLeadingSlashes("/" + head) == CollapseLeadingSlashes(head)
  {
    assert ("/" + head)[1..] == head;
  }
}
