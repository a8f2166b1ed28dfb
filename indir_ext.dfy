/**
 * The `indir` include processor of asciidoctor-indir_ext. It wraps the
 * generic include processor: for every include directive it remembers the
 * request, lets the generic processor read the target, and then frames the
 * lines read with two attribute entries, one that sets `indir` to the
 * directory of the included file and one that sets it to the directory
 * of the parent file: entry 1 of the last include frame, or else the
 * document's `docfile` attribute.
 *
 * The generic processor's reading (path resolution, line selection, file
 * access) is not modelled: its outcome is a parameter of `ReadLines`.
 */
module IndirExt {
  import opened Wrappers
  import opened RubyText

  /**
   * One frame of the reader's include stack, an array of entries. Entry 1
   * is the file the reader was reading when the frame was pushed; an entry
   * that is `nil` is `None`.
   */
  type Frame = seq<Option<string>>

  /** The host's reader, as far as the processor looks at it: its include stack, possibly `nil`. */
  datatype Reader = Reader(includeStack: Option<seq<Frame>>)

  /** The host's document, as far as the processor looks at it: its attributes. */
  datatype Document = Document(attributes: map<string, string>)

  /** What the generic processor reads: one block of text or a list of lines. */
  datatype Content = Text(text: string) | LineList(lines: seq<string>)

  /** Why `ReadLines` produces no lines; each stands for an exception the Ruby code lets escape. */
  datatype Error =
    | ReadFailed(reason: string)  // raised by the generic processor's read, passed through
    | NoTarget                    // no request recorded: `File.dirname(nil)`
    | NoReader                    // no request recorded: `nil.include_stack`
    | NoDocument                  // no request recorded: `nil.attr`
    | NoDocfile                   // the document has no `docfile` attribute: `File.dirname(nil)`

  /** The attribute entry that sets `indir` to `dir`. */
  function Directive(dir: string): (line: string)
    ensures |line| == |dir| + 8 && line[..8] == ":indir: " && line[8..] == dir
  {
    ":indir: " + dir
  }

  /** Two entries are the same line exactly when they set `indir` to the same directory. */
  lemma DirectiveInjective(dir: string, other: string)
    ensures Directive(dir) == Directive(other) <==> dir == other
  {
  }

  /** `include_stack&.dig(-1, 1)`: entry 1 of the last frame, when there is one. */
  function LastFrameFile(stack: Option<seq<Frame>>): (file: Option<string>)
    ensures file.Some? <==>
      stack.Some? && |stack.value| > 0
      && |stack.value[|stack.value| - 1]| > 1 && stack.value[|stack.value| - 1][1].Some?
    ensures file.Some? ==> file == stack.value[|stack.value| - 1][1]
  {
    match stack
    case None => None
    case Some(frames) =>
      if frames == [] then None
      else
        var top := frames[|frames| - 1];
        if |top| > 1 then top[1] else None
  }

  /**
   * The parent file: entry 1 of the last include frame, or else the
   * document's `docfile` attribute.
   */
  function ParentFile(reader: Reader, document: Option<Document>): (parent: Result<string, Error>)
    ensures LastFrameFile(reader.includeStack).Some? ==>
      parent == Success(LastFrameFile(reader.includeStack).value)
    ensures LastFrameFile(reader.includeStack).None? ==>
      match document
      case None => parent == Failure(NoDocument)
      case Some(doc) =>
        if "docfile" in doc.attributes then parent == Success(doc.attributes["docfile"])
        else parent == Failure(NoDocfile)
  {
    match LastFrameFile(reader.includeStack)
    case Some(file) => Success(file)
    case None =>
      match document
      case None => Failure(NoDocument)
      case Some(doc) =>
        if "docfile" in doc.attributes then Success(doc.attributes["docfile"]) else Failure(NoDocfile)
  }

  /** The content as a list of lines: a block of text is split with `Lines`, a list is kept as it is. */
  function SplitContent(content: Content): (lines: seq<string>)
    ensures content.LineList? ==> lines == content.lines
    ensures content.Text? ==> Concat(lines) == content.text && WellSplit(lines)
  {
    match content
    case Text(text) => Lines(text)
    case LineList(lines) => lines
  }

  /**
   * `lines` is `body` framed by the two opening lines (the entry for
   * `openDir`, then a blank line) and the two closing lines (a blank line,
   * then the entry for `closeDir`).
   */
  predicate Framed(lines: seq<string>, body: seq<string>, openDir: string, closeDir: string)
  {
    && |lines| == |body| + 4
    && lines[0] == Directive(openDir)
    && lines[1] == ""
    && lines[2..|lines| - 2] == body
    && lines[|lines| - 2] == ""
    && lines[|lines| - 1] == Directive(closeDir)
  }

  /** A framed result is exactly the body with two lines before it and two after it. */
  lemma FramedIsConcatenation(lines: seq<string>, body: seq<string>, openDir: string, closeDir: string)
    ensures Framed(lines, body, openDir, closeDir) <==>
      lines == [Directive(openDir), ""] + body + ["", Directive(closeDir)]
  {
  }

  /**
   * What reading an include gives, for the generic processor's read `raw`
   * and the recorded target, reader and document: the read error, or the
   * error of the first lookup that fails, or the content's lines with the
   * opening entry for the target's directory and a blank line before them
   * and a blank line and the closing entry for the parent's directory after
   * them. A read error passes through; otherwise a missing target, reader
   * or parent file is the error, in that order; there are lines exactly
   * when none of these fails.
   */
  function ReadLinesResult(raw: Result<Content, string>, target: Option<string>, reader: Option<Reader>,
                           document: Option<Document>): (r: Result<seq<string>, Error>)
    ensures raw.Failure? ==> r == Failure(ReadFailed(raw.error))
    ensures raw.Success? && target.None? ==> r == Failure(NoTarget)
    ensures raw.Success? && target.Some? && reader.None? ==> r == Failure(NoReader)
    ensures raw.Success? && target.Some? && reader.Some? && ParentFile(reader.value, document).Failure? ==>
      r == Failure(ParentFile(reader.value, document).error)
    ensures r.Success? <==>
      raw.Success? && target.Some? && reader.Some? && ParentFile(reader.value, document).Success?
  {
    match raw
    case Failure(reason) => Failure(ReadFailed(reason))
    case Success(content) =>
      match target
      case None => Failure(NoTarget)
      case Some(file) =>
        match reader
        case None => Failure(NoReader)
        case Some(r) =>
          match ParentFile(r, document)
          case Failure(e) => Failure(e)
          case Success(parent) =>
            Success([Directive(Dirname(file)), ""] + SplitContent(content) + ["", Directive(Dirname(parent))])
  }

  /**
   * The lines of a successful read: the content's lines, untouched, framed
   * by the entry for the target's directory and the entry for the parent
   * file's directory.
   */
  lemma ReadLinesOutcome(raw: Result<Content, string>, target: Option<string>, reader: Option<Reader>,
                         document: Option<Document>)
    ensures ReadLinesResult(raw, target, reader, document).Success? ==>
      Framed(ReadLinesResult(raw, target, reader, document).value, SplitContent(raw.value),
             Dirname(target.value), Dirname(ParentFile(reader.value, document).value))
  {
  }

  /** The include processor, holding the request of the include being processed. */
  class IndirIncludeProcessor {
    var document: Option<Document>
    var reader: Option<Reader>
    var target: Option<string>

    /** A processor with no request recorded. */
    constructor ()
      ensures document == None && reader == None && target == None
    {
      document := None;
      reader := None;
      target := None;
    }

    /**
     * Records the document, reader and target of an include directive.
     * The generic processor's own handling of the directive, which goes on
     * to call `ReadLines`, is not modelled; `attributes` only flows there.
     */
    method Process(document: Document, reader: Reader, target: string, attributes: map<string, string>)
      modifies this
      ensures this.document == Some(document)
      ensures this.reader == Some(reader)
      ensures this.target == Some(target)
    {
      this.document := Some(document);
      this.reader := Some(reader);
      this.target := Some(target);
    }

    /**
     * The lines of the included file, framed by the `indir` entries: `raw`
     * is what the generic processor read for `filename`, and the result is
     * `ReadLinesResult` of it and the recorded request, which `filename`
     * does not enter. The recorded request is only read.
     */
    method ReadLines(filename: string, raw: Result<Content, string>) returns (result: Result<seq<string>, Error>)
      ensures result == ReadLinesResult(raw, target, reader, document)
    {
      if raw.Failure? {
        return Failure(ReadFailed(raw.error));
      }
      var content := SplitContent(raw.value);
      ghost var body := content;

      if target.None? {
        return Failure(NoTarget);
      }
      var includedDocdir := Dirname(target.value);
      content := [""] + content;
      content := [Directive(includedDocdir)] + content;

      if reader.None? {
        return Failure(NoReader);
      }
      var parentDocfile := ParentFile(reader.value, document);
      if parentDocfile.Failure? {
        return Failure(parentDocfile.error);
      }
      var parentDocdir := Dirname(parentDocfile.value);
      content := content + [""];
      content := content + [Directive(parentDocdir)];
      assert content == [Directive(includedDocdir), ""] + body + ["", Directive(parentDocdir)];
      return Success(content);
    }
  }

  /**
   * An include of `dir/base` straight from the root document, whose file
   * lies in the working directory: the lines read, which come already
   * split, are kept as they are and framed by the entries for `dir` and ".".
   */
  method IncludeFromRoot(dir: string, base: string, docfile: string, lines: seq<string>)
    returns (result: Result<seq<string>, Error>)
    requires dir != [] && dir[|dir| - 1] != '/' && (|dir| < 2 || dir[0] != '/' || dir[1] != '/')
    requires base != [] && NoSlash(base) && NoSlash(docfile)
    ensures result == Success([Directive(dir), ""] + lines + ["", Directive(".")])
  {
    var processor := new IndirIncludeProcessor();
    var target := dir + "/" + base;
    processor.Process(Document(map["docfile" := docfile]), Reader(None), target, map[]);
    JoinedDirname(dir, base, target);
    assert ParentFile(Reader(None), Some(Document(map["docfile" := docfile]))) == Success(docfile);
    assert Dirname(docfile) == "." && SplitContent(LineList(lines)) == lines;
    result := processor.ReadLines(target, Success(LineList(lines)));
  }

  /** "sub/sub1.adoc" included from "main.adoc". */
  method TopLevelExample() returns (result: Result<seq<string>, Error>)
    ensures result == Success([":indir: sub", "", "line1\n", "", ":indir: ."])
  {
    var lines := ["line1\n"];
    result := IncludeFromRoot("sub", "sub1.adoc", "main.adoc", lines);
    var opening, closing := Directive("sub"), Directive(".");
    assert opening == ":indir: sub" && closing == ":indir: .";
    assert [opening, ""] + lines + ["", closing] == [opening, "", "line1\n", "", closing];
  }

  /**
   * An include of `dir/base` while the last include frame names
   * `parentDir/parentBase`: the text read is split into its lines, and the
   * closing entry is for `parentDir`, whatever the root document is.
   */
  method IncludeInsideParent(dir: string, base: string, parentDir: string, parentBase: string, document: Document,
                             text: string)
    returns (result: Result<seq<string>, Error>)
    requires dir != [] && dir[|dir| - 1] != '/' && (|dir| < 2 || dir[0] != '/' || dir[1] != '/')
    requires base != [] && NoSlash(base)
    requires parentDir != [] && parentDir[|parentDir| - 1] != '/'
      && (|parentDir| < 2 || parentDir[0] != '/' || parentDir[1] != '/')
    requires parentBase != [] && NoSlash(parentBase)
    ensures result == Success([Directive(dir), ""] + Lines(text) + ["", Directive(parentDir)])
  {
    var processor := new IndirIncludeProcessor();
    var frame: Frame := [None, Some(parentDir + "/" + parentBase)];
    processor.Process(document, Reader(Some([frame])), dir + "/" + base, map[]);
    result := processor.ReadLines(dir + "/" + base, Success(Text(text)));
    InsideParentResult(dir, base, parentDir, parentBase, document, text);
  }

  /** What `IncludeInsideParent` reads, on values. */
  lemma InsideParentResult(dir: string, base: string, parentDir: string, parentBase: string, document: Document,
                           text: string)
    requires dir != [] && dir[|dir| - 1] != '/' && (|dir| < 2 || dir[0] != '/' || dir[1] != '/')
    requires base != [] && NoSlash(base)
    requires parentDir != [] && parentDir[|parentDir| - 1] != '/'
      && (|parentDir| < 2 || parentDir[0] != '/' || parentDir[1] != '/')
    requires parentBase != [] && NoSlash(parentBase)
    ensures ReadLinesResult(Success(Text(text)), Some(dir + "/" + base),
                            Some(Reader(Some([[None, Some(parentDir + "/" + parentBase)]]))), Some(document))
            == Success([Directive(dir), ""] + Lines(text) + ["", Directive(parentDir)])
  {
    JoinedDirname(dir, base, dir + "/" + base);
    JoinedDirname(parentDir, parentBase, parentDir + "/" + parentBase);
    var frame: Frame := [None, Some(parentDir + "/" + parentBase)];
    assert LastFrameFile(Some([frame])) == Some(parentDir + "/" + parentBase);
  }

  /** "parent/sub/child.adoc", holding two lines, read while the last include frame names "parent/parent.adoc". */
  method NestedExample() returns (result: Result<seq<string>, Error>)
    ensures result == Success([":indir: parent/sub", "", "one\n", "two", "", ":indir: parent"])
  {
    var text, pieces := "one\ntwo", ["one\n", "two"];
    NestedSplit(text, pieces);
    var dir, base, parentDir, parentBase := "parent/sub", "child.adoc", "parent", "parent.adoc";
    NestedArguments(dir, base, parentDir, parentBase);
    result := IncludeInsideParent(dir, base, parentDir, parentBase, Document(map[]), text);
    NestedFrame(dir, parentDir, pieces);
  }

  /**
   * Proof helper for `NestedExample`: its literal paths meet what
   * `IncludeInsideParent` asks of them. It models nothing of the processor.
   */
  lemma NestedArguments(dir: string, base: string, parentDir: string, parentBase: string)
    requires dir == "parent/sub" && base == "child.adoc"
    requires parentDir == "parent" && parentBase == "parent.adoc"
    ensures dir != [] && dir[0] != '/' && dir[|dir| - 1] != '/'
    ensures base != [] && NoSlash(base)
    ensures parentDir != [] && parentDir[0] != '/' && parentDir[|parentDir| - 1] != '/'
    ensures parentBase != [] && NoSlash(parentBase)
  {
  }

  /** The framed lines of `NestedExample`, written out. */
  lemma NestedFrame(dir: string, parentDir: string, pieces: seq<string>)
    requires dir == "parent/sub" && parentDir == "parent"
    requires pieces == ["one\n", "two"]
    ensures [Directive(dir), ""] + pieces + ["", Directive(parentDir)]
            == [":indir: parent/sub", "", "one\n", "two", "", ":indir: parent"]
  {
    var opening, closing := Directive(dir), Directive(parentDir);
    assert opening == ":indir: parent/sub" && closing == ":indir: parent";
    assert [opening, ""] + pieces + ["", closing] == [opening, "", "one\n", "two", "", closing];
  }

  /** The split of the text that `NestedExample` reads. */
  lemma NestedSplit(text: string, pieces: seq<string>)
    requires text == "one\ntwo"
    requires pieces == ["one\n", "two"]
    ensures Lines(text) == pieces
  {
    assert Concat(pieces) == text by {
      assert Concat(pieces[1..]) == pieces[1] + Concat([]);
    }
    assert WellSplit(pieces) by {
      assert IsLine(pieces[0]) && IsLine(pieces[1]);
    }
    LinesUnique(text, pieces);
  }

  /** `DirnameOfJoin` for one separator and no trailing ones, as the examples use it. */
  lemma JoinedDirname(dir: string, base: string, path: string)
    requires dir != [] && dir[|dir| - 1] != '/' && (|dir| < 2 || dir[0] != '/' || dir[1] != '/')
    requires base != [] && NoSlash(base)
    requires path == dir + "/" + base
    ensures Dirname(path) == dir
  {
    DirnameOfJoin(dir, "/", base, "");
    assert dir + "/" + base + "" == path;
  }

  /**
   * Only the latest request counts: after two requests, the opening entry is
   * for the second target, whatever the first one and the `filename` given
   * to `ReadLines` are. Empty text gives no lines.
   */
  method LatestRequestWins(first: string, dir: string, base: string, docfile: string, filename: string)
    returns (result: Result<seq<string>, Error>)
    requires dir != [] && dir[|dir| - 1] != '/' && (|dir| < 2 || dir[0] != '/' || dir[1] != '/')
    requires base != [] && NoSlash(base) && NoSlash(docfile)
    ensures result == Success([Directive(dir), "", "", Directive(".")])
  {
    var processor := new IndirIncludeProcessor();
    var document := Document(map["docfile" := docfile]);
    processor.Process(document, Reader(Some([])), first, map[]);
    var target := dir + "/" + base;
    processor.Process(document, Reader(Some([[None]])), target, map[]);
    result := processor.ReadLines(filename, Success(Text("")));
    assert result == Success([Directive(dir), "", "", Directive(".")]) by {
      JoinedDirname(dir, base, target);
      assert ParentFile(Reader(Some([[None]])), Some(document)) == Success(docfile);
      assert Dirname(docfile) == "." && SplitContent(Text("")) == [];
      FourLines(Directive(dir), Directive("."));
    }
  }

  /** Proof helper for `LatestRequestWins`, a sequence identity; it models nothing of the processor. */
  lemma FourLines(opening: string, closing: string)
    ensures [opening, ""] + [] + ["", closing] == [opening, "", "", closing]
  {
  }

  /**
   * The failures: a read error passes through unchanged, reading before any
   * request is recorded fails on the missing target, and with no include
   * frame and no `docfile` the closing directory cannot be found.
   */
  method Failures() returns (readError: Result<seq<string>, Error>, noRequest: Result<seq<string>, Error>,
                             noDocfile: Result<seq<string>, Error>)
    ensures readError == Failure(ReadFailed("No such file"))
    ensures noRequest == Failure(NoTarget)
    ensures noDocfile == Failure(NoDocfile)
  {
    var processor := new IndirIncludeProcessor();
    noRequest := processor.ReadLines("sub.adoc", Success(LineList(["x\n"])));
    processor.Process(Document(map[]), Reader(Some([])), "sub.adoc", map[]);
    readError := processor.ReadLines("sub.adoc", Failure("No such file"));
    noDocfile := processor.ReadLines("sub.adoc", Success(LineList(["x\n"])));
  }
}
