# asciidoctor-indir_ext: the `indir` include processor

asciidoctor-indir_ext is an Asciidoctor extension. It is meant to keep the
document attribute `indir` pointing at the directory of the AsciiDoc file
being read. It works through an include processor. For every include directive, the
processor records the directive's document, reader and target. It then lets
the generic include processor read the target. Finally it frames the lines
read between two attribute entries:

- before them, `:indir: <directory of the target>` followed by a blank line;
- after them, a blank line followed by `:indir: <directory of the parent file>`.

The parent file is entry 1 of the reader's last include frame. When there
is no such entry, it is the document's `docfile` attribute.

This project models that processor in Dafny and proves what it produces.

- `wrappers.dfy` (module `Wrappers`): `Option` stands for Ruby's `nil`, and
  `Result` stands for a raised exception.
- `ruby_text.dfy` (module `RubyText`): the two Ruby core methods the processor
  relies on, as pure functions.
  - `Lines` is `String#lines` with the default separator "\n".
  - `Dirname` is `File.dirname` for `/`-separated paths. Trailing separators
    are ignored. The last component is dropped, and so is the run of
    separators in front of it. A path without a separator gives ".". A path
    with nothing but leading separators before its last component gives "/".
    Two or more leading separators count as one.
- `indir_ext.dfy` (module `IndirExt`): the processor, the host objects it
  looks at, and worked examples.
  - `IndirIncludeProcessor` is a class. Its fields are `document`, `reader`
    and `target`, the three entries of the Ruby `@tmp` hash. `Process` writes
    all three. `ReadLines` only reads them: it has no `modifies` clause.
  - `ReadLines` is specified by the function `ReadLinesResult`. Its own
    contract states the error order. The lemma `ReadLinesOutcome` states the
    shape of the lines when there are any.

Inputs from outside the processor are parameters of the model:

- What the generic processor reads is the `raw` parameter of `ReadLines`: a
  block of text, a list of lines, or the error that reading raised.
- The host's reader is reduced to its include stack, which may be `nil`.
- The host's document is reduced to its attribute map.

Three details of the code that the model keeps:

- The opening entry comes first and the blank line second. The code shifts
  `''` onto the front first and the entry after it (extension.rb:70-71).
- The parent file is entry 1 of the last include frame, `dig(-1, 1)`
  (extension.rb:74).
- The four added lines carry no "\n" (extension.rb:70-71, 76-77).

## Model

| member | source | states |
|---|---|---|
| IndirExt.IndirIncludeProcessor.constructor | lib/asciidoctor/indir_ext/extension.rb:47-51 | A new processor has nothing recorded: the document, reader and target are all absent. |
| IndirExt.IndirIncludeProcessor.Process | lib/asciidoctor/indir_ext/extension.rb:53-58 | Records the directive's document, reader and target. These three fields are the only state it writes, and a later call overwrites an earlier one. |
| IndirExt.IndirIncludeProcessor.ReadLines | lib/asciidoctor/indir_ext/extension.rb:60-78 | The result is `ReadLinesResult` of the raw read and the recorded request. `filename` plays no part. The recorded request is left unchanged. |
| IndirExt.Directive | lib/asciidoctor/indir_ext/extension.rb:71 | The `%(:indir: #{dir})` entry (here and at line 77) is the 8 characters ":indir: " followed by exactly `dir`. |
| IndirExt.DirectiveInjective | lib/asciidoctor/indir_ext/extension.rb:77 | Two entries are the same line exactly when they name the same directory. |
| IndirExt.ReadLinesResult | lib/asciidoctor/indir_ext/extension.rb:60-78 | What `read_lines` returns or raises. Errors come in a fixed order. A read error passes through unchanged. Next comes a missing target (`File.dirname(nil)`), then a missing reader, then a missing parent file. The result has lines exactly when none of these fails. |
| IndirExt.ReadLinesOutcome | lib/asciidoctor/indir_ext/extension.rb:65-77 | When there are lines, they are the content's lines, untouched, with two lines before them and two after them. Their length is the body's length plus 4. Line 0 is the entry for the target's directory and line 1 is blank. The second-to-last line is blank and the last is the entry for the parent file's directory. |
| IndirExt.FramedIsConcatenation | lib/asciidoctor/indir_ext/extension.rb:70-77 | These framing conditions hold exactly when the lines are the opening entry, a blank line, the body, a blank line and the closing entry, in that order. |
| IndirExt.LastFrameFile | lib/asciidoctor/indir_ext/extension.rb:74 | `include_stack&.dig(-1, 1)` gives a file exactly when these all hold: the stack is present and not empty, its last frame has an entry 1, and that entry is not `nil`. The file is then that entry. |
| IndirExt.ParentFile | lib/asciidoctor/indir_ext/extension.rb:74 | The parent file is the last frame's file when there is one. Otherwise it is the document's `docfile` attribute. A missing document is an error, and so is a document with no `docfile`. |
| IndirExt.SplitContent | lib/asciidoctor/indir_ext/extension.rb:65 | A list of lines is kept exactly as it is. Text is split into lines that join back to the text. |
| RubyText.Lines | lib/asciidoctor/indir_ext/extension.rb:65 | The pieces of `String#lines` join back to the string. Every piece is non-empty and has no "\n" except possibly as its last character. Every piece but the last ends in "\n". The empty string, and only it, gives no pieces. |
| RubyText.LinesUnique | lib/asciidoctor/indir_ext/extension.rb:65 | Any sequence of pieces with those properties that joins to `s` is `Lines(s)`, so the split is determined by its contract. |
| RubyText.LinesCount | lib/asciidoctor/indir_ext/extension.rb:65 | The number of lines is the number of "\n" characters, plus one when the text is non-empty and does not end in "\n". |
| RubyText.Dirname | lib/asciidoctor/indir_ext/extension.rb:69 | `File.dirname` is never empty. It is "." for a path without a separator, and it starts with "/" for an absolute path. |
| RubyText.DirnameOfJoin | lib/asciidoctor/indir_ext/extension.rb:69 | Take a directory that does not end in a separator and does not open with two of them. Join it, a run of separators, a base name and any trailing separators. `Dirname` of the result gives the directory back. |
| RubyText.DirnameTrailingSlash | lib/asciidoctor/indir_ext/extension.rb:75 | One more trailing separator does not change the directory of a non-empty path. |
| RubyText.DirnameTopLevel | lib/asciidoctor/indir_ext/extension.rb:75 | A file directly under the root, "/" followed by a name with no separator, has directory "/". |
| RubyText.DirnameOfRoot | lib/asciidoctor/indir_ext/extension.rb:75 | A non-empty path made only of separators has directory "/". |
| RubyText.DirnameLeadingSlashes | lib/asciidoctor/indir_ext/extension.rb:75 | A path opening with two separators has the same directory as the one opening with one. |
| IndirExt.IncludeFromRoot | lib/asciidoctor/indir_ext/extension.rb:60-78 | Including `dir/base` from a root document whose `docfile` has no separator. `dir` may be relative or absolute, as long as it does not end in a separator or open with two. The result: lines that come already split are kept, between the entries for `dir` and ".". |
| IndirExt.TopLevelExample | lib/asciidoctor/indir_ext/extension.rb:68-77 | Including "sub/sub1.adoc", holding "line1\n", from "main.adoc" gives `:indir: sub`, "", "line1\n", "", `:indir: .`. |
| IndirExt.IncludeInsideParent | lib/asciidoctor/indir_ext/extension.rb:74-77 | Including `dir/base` while the last include frame names `parentDir/parentBase`: the text is split into its lines, and the closing entry is for `parentDir`, whatever the document is. |
| IndirExt.InsideParentResult | lib/asciidoctor/indir_ext/extension.rb:60-78 | The same outcome, stated on `ReadLinesResult` directly. |
| IndirExt.NestedExample | lib/asciidoctor/indir_ext/extension.rb:74-77 | Including "parent/sub/child.adoc", holding "one\ntwo", while the last include frame names "parent/parent.adoc", gives `:indir: parent/sub`, "", "one\n", "two", "", `:indir: parent`. |
| IndirExt.LatestRequestWins | lib/asciidoctor/indir_ext/extension.rb:54-56 | After two requests, the opening entry belongs to the second target. The first request does not matter, and neither does the `filename` argument. Empty text adds no lines. |
| IndirExt.Failures | lib/asciidoctor/indir_ext/extension.rb:62-75 | A read error passes through unchanged. Reading before any request fails on the missing target. With no include frame and no `docfile`, reading fails on the missing parent file. |

## Left out

- The `super` calls in the constructor, `process` and `read_lines`. They belong to the generic include processor, which resolves the path, selects lines and reads the file. Its outcome is the `raw` parameter of `ReadLines`, and the `attributes` argument of `Process` only flows to it.
- `File.dirname` for other platforms: Windows drive letters, `\` separators and UNC paths. `Dirname` covers `/`-separated paths only.
- Registering the extension, and the inherited `handles?`, which accepts every include.
- The host's own handling of include frames. When and how Asciidoctor pushes and pops frames is not part of this model, so neither is the value `indir` takes back after a nested include returns. The model takes the stack as the host hands it over. So it does not show that entry 1 of the last frame is the file holding the include directive. That depends on when the host pushes a frame relative to calling `read_lines`.
- Every frame entry but entry 1, the only one `read_lines` looks at. The host's frames hold other values too, such as the saved line array in entry 0, and a `Frame` cannot hold them. The examples put `None` in those places. Frames that are not arrays are left out as well.
- Why `@tmp` is a hash rather than three instance variables: Asciidoctor freezes extension objects. The model keeps the three entries as fields of the class.
- Sharing of the reader and the document. `Process` copies the include stack and the attribute map into the processor as values. Ruby stores references and reads `include_stack` and the `docfile` attribute only when `read_lines` runs (extension.rb:54-55, 74). The two agree only if neither changes between the calls.
- Sharing of the array returned by `super`. Ruby changes that array in place with `unshift` and `<<`. The model builds a new sequence, so code holding the old array would not see it change.
