# mdbook-d2-png, modelled in Dafny

mdbook-d2-png is an mdBook preprocessor. It finds the fenced code blocks tagged
`d2` in every chapter, has the `d2` program render each one to a PNG, and puts an
image where the block was. The image either links the PNG file (file mode) or
embeds its bytes as a base 64 data URI (inline mode).

This project models the two core pieces of the preprocessor and proves what they
promise:

- **The block scanner** (`lib.dfy`, module `D2Preprocessor`). The class
  `D2BlockProcessor` has the three fields that `src/lib.rs` updates in place: the
  in-block flag, the diagram buffer and the diagram index. Its methods mirror
  `process_event`, `start_block`, `accumulate_content` and `end_block`.
  `ProcessEvents` is the `flat_map` loop over a chapter's events. It is proved
  against `Run`, a left fold of the one-event function `Step`. `Step` and `Run` are
  parameterised by a `Renderer`: what the backend answers for the k-th diagram and
  its text. The lemmas about whole streams therefore hold whatever the renderer
  answers. They cover:
  - pass-through of everything outside d2 blocks;
  - text collection in order;
  - 1-based numbering of diagrams, unaffected by earlier failures;
  - the whole-chapter theorem `RunDocument`.
- **The render backend** (`backend.dfy`, module `RenderBackend`). It covers:
  - the diagram file name and its parse-back;
  - the absolute path of the diagram file;
  - the chapter-relative path, with a loop method like the source's, and a proof
    that it leads to the written file;
  - the file-mode URL with `\` replaced by `/`;
  - the renderer's argument list, with its parse-back;
  - the failure message of a failed compilation;
  - the four replacement events;
  - the inline data URI, with a base 64 decoder proving it round-trips;
  - the `render` dispatch with every error path.

  The backend is a datatype because no backend method changes it. The effects are
  the fields of an `Env` value, each answered by a total function: creating the
  output directory, running the renderer, reading the PNG back, and the platform's
  path separator.

Supporting modules:
- `Strings`: decimal rendering and parsing, replace, join, split.
- `Paths`: paths as sequences of components, parent, lexical resolution, display.
- `Base64`: section 4 of RFC 4648, the standard alphabet with padding, which is
  the `STANDARD` engine the backend uses.
- `Markdown`: the part of pulldown-cmark's event type that the core inspects or
  produces.

## Model

| member | source | states |
|---|---|---|
| D2Preprocessor.IsD2BlockStart | src/lib.rs:120-125 | exactly the start of a code block fenced with the info string "d2"; it is neither text nor a block end |
| D2Preprocessor.IsTextEvent | src/lib.rs:128-130 | exactly the text events, whatever they hold; a text event is never a block end |
| D2Preprocessor.IsBlockEnd | src/lib.rs:133-135 | exactly the end of a code block, fenced or indented alike |
| D2Preprocessor.Replacement | src/lib.rs:171-177 | the block's replacement is empty exactly when rendering failed; otherwise it is one image paragraph |
| D2Preprocessor.OutputDirFailureDropsBlock | src/lib.rs:171-177 | when the output directory cannot be created, the block's replacement is empty, as for any failed diagram |
| D2Preprocessor.Step | src/lib.rs:102-114 | one event raises the index only at a d2 start; the scanner is inside a block afterwards exactly when the event was a d2 start or it was inside and the event is not a block end; it emits nothing, the event itself, or the rendering of the collected text under the current index |
| D2Preprocessor.D2BlockProcessor.constructor | src/lib.rs:89-97 | a new processor is outside any block, with an empty buffer and diagram index 0 |
| D2Preprocessor.D2BlockProcessor.ProcessEvent | src/lib.rs:102-114 | a d2 start (checked first, even inside a block) emits nothing, enters a block, empties the buffer and adds 1 to the index; inside a block a text event emits nothing and appends its text; a code-block end inside a block leaves the block and emits exactly the backend's replacement (nothing on failure); every other event is emitted alone and changes no state |
| D2Preprocessor.D2BlockProcessor.StartBlock | src/lib.rs:138-142 | in block, buffer empty, index one higher |
| D2Preprocessor.D2BlockProcessor.AccumulateContent | src/lib.rs:149-153 | the buffer gains the event's text at its end; flag and index are unchanged |
| D2Preprocessor.D2BlockProcessor.EndBlock | src/lib.rs:158-178 | leaves the block; the output is the rendering of the buffer as diagram number `diagramIndex` of the chapter, or nothing when rendering fails |
| D2Preprocessor.ProcessEvents | src/lib.rs:181-188 | one processor per chapter; the output is the concatenation, in order, of what each event emits, which equals the fold `Run` of the backend's renderer |
| D2Preprocessor.RunAppend | src/lib.rs:187 | scanning two streams one after the other is scanning their concatenation: the outputs concatenate and the state carries over |
| D2Preprocessor.RunIndex | src/lib.rs:138-142 | the index only moves at d2 starts: after a stream it has grown by exactly the number of d2 starts in it, whatever the renderer answered |
| D2Preprocessor.InBlockAfterStart | src/lib.rs:103-110 | starting outside a block, being inside one after a stream needs at least one d2 start in it |
| D2Preprocessor.BlockEndRendersCount | src/lib.rs:164-177 | a code-block end reached inside a block renders the buffer as diagram k, where k ≥ 1 is the number of d2 starts so far, earlier failures included; it leaves the block and adds only that rendering to the output |
| D2Preprocessor.RunWithoutD2Blocks | src/lib.rs:102-113 | a stream with no d2 start, scanned from outside a block, comes out unchanged, and the state is unchanged too |
| D2Preprocessor.RunInBlock | src/lib.rs:106-108 | inside a block, a body without block ends or d2 starts adds its texts to the buffer in arrival order and emits its other events unchanged |
| D2Preprocessor.RunBlock | src/lib.rs:103-110 | a whole d2 block emits its non-text events and then the rendering of its text under the next index; the scanner ends outside a block |
| D2Preprocessor.RunDocument | src/lib.rs:181-188 | a chapter made of passed events and d2 blocks comes out as those events in place, with each block replaced by the rendering of its text; blocks are numbered on in document order, and the final index counts the blocks |
| D2Preprocessor.TwoDiagrams | src/lib.rs:141 | two d2 blocks in one chapter are replaced by the renderings of diagrams 1 and 2, in order |
| D2Preprocessor.DistinctDiagramFiles | src/lib.rs:164-169 | two different diagrams of one chapter are written to different files |
| RenderBackend.Filename | src/backend.rs:65-71 | the name ends in ".png" and holds no path separator |
| RenderBackend.FilenameRoundTrip | src/backend.rs:65-71 | the section numbers and the diagram index can be read back from the file name |
| RenderBackend.FilenameInjective | src/backend.rs:65-71 | two diagrams with the same file name have the same section numbers and the same index |
| RenderBackend.FirstDiagramOfChapterOne | tests/render.rs:18 | the first diagram of chapter 1 is "1.1.png" |
| RenderBackend.OutputPath | src/backend.rs:196-198 | the directory created before rendering is the output directory placed under the source directory |
| RenderBackend.RelativeFilePath | src/backend.rs:155-158 | the output directory followed by the diagram's file name |
| RenderBackend.FilePath | src/backend.rs:146-158 | the path is `source_dir / output_dir / filename`, whatever the chapter's path |
| RenderBackend.DistinctFilePaths | src/backend.rs:146-158 | diagrams that differ in section or index get different absolute paths |
| RenderBackend.SharedFilePath | src/backend.rs:146-158 | two diagrams share a file exactly when their section numbers and indices agree, whichever chapters they belong to |
| RenderBackend.UnnumberedChaptersCollide | src/backend.rs:65-71 | any two chapters without a section number write their first diagram to the same file, the default section text followed by "1.png" in the output directory (`output_dir/01.png` with mdBook's "0") |
| RenderBackend.CalculateRelativePathForChapter | src/backend.rs:253-267 | the loop's result is one ".." per directory level of the chapter, then `output_dir / filename` |
| RenderBackend.ChapterRelativePathShape | src/backend.rs:253-267 | exactly `depth` leading ".." components and none after them; a root-level chapter gets none |
| RenderBackend.RelativePathReachesFile | src/backend.rs:253-267 | resolved from the chapter's directory, the relative path leads to the absolute path the renderer wrote, for chapter directories and an output directory made of ordinary components |
| RenderBackend.EmbeddedUrl | src/backend.rs:233-237 | the file-mode URL contains no backslash |
| RenderBackend.EmbeddedUrlPortable | src/backend.rs:233-237 | with either '/' or '\\' as the platform's separator, the URL is the relative path joined with '/', when no output-directory component holds a backslash |
| RenderBackend.BackslashOutputDirSplits | src/backend.rs:233-237 | on a '/' platform, an output directory named "a\\b" is displayed as "a\\b/1.1.png", but the link differs from that path: the replace turns its backslash into a separator |
| RenderBackend.RootChapterUrl | tests/render.rs:18 | a root-level chapter 1 with output directory "d2" links "d2/1.1.png" |
| RenderBackend.NestedChapterUrl | src/backend.rs:256-266 | the same diagram in a chapter one directory down links "../d2/1.1.png" |
| RenderBackend.BasicArgs | src/backend.rs:269-293 | the argument vector built by successive extends is the font pairs, then layout, theme and dark theme pairs when set, then "-" |
| RenderBackend.BasicArgListLength | src/backend.rs:269-293 | the length is 1 + 6·[fonts] + 2·[layout] + 2·[theme] + 2·[dark theme], and the last argument is "-" |
| RenderBackend.ParseBasicArgList | src/backend.rs:269-293 | reading the flags back from the argument list recovers exactly the configured fonts, layout, theme and dark theme |
| RenderBackend.DiagramInvocation | src/backend.rs:200-203 | the configured program is run with the diagram text on stdin; its last two arguments are "-" and the displayed absolute file path |
| RenderBackend.DiagramInvocationArgs | src/backend.rs:200-205 | the renderer is the configured program and gets the diagram text on stdin; its last argument is the absolute file path, preceded by "-" and the basic arguments |
| RenderBackend.IndentLines | src/backend.rs:333-334 | after replacing every '\n' by "\n  ", every line break is followed by two spaces, and removing them gives the text back |
| RenderBackend.FailureMessage | src/backend.rs:333-338 | the message starts with the header naming chapter and index, and every line break after it is followed by two spaces |
| RenderBackend.FailureMessageParts | src/backend.rs:333-338 | the message is "failed to compile D2 diagram (chapter, #index):" followed by a line break, two spaces and then the whole stderr, every further line of it indented by two spaces |
| RenderBackend.ImageEvents | src/backend.rs:79-91 | the fragment is a paragraph holding one inline image with that URL and empty title and id |
| RenderBackend.DataUri | src/backend.rs:222 | the URI starts with "data:image/png;base64," followed by four characters per started group of three bytes |
| RenderBackend.DataUriRoundTrip | src/backend.rs:222 | the data URI starts with "data:image/png;base64," and decodes back to exactly the file's bytes |
| RenderBackend.ProcessResult | src/backend.rs:327-340 | success exactly when the renderer ran and exited successfully; an unsuccessful exit gives the compile error carrying the formatted failure message with the renderer's stderr; a renderer that could not be spawned, fed or awaited gives an error that is neither a compile, directory nor read error |
| RenderBackend.GenerateDiagram | src/backend.rs:188-208 | succeeds exactly when the output directory was created and the renderer exited successfully, giving the absolute file path; a directory failure or an unsuccessful exit gives the matching error |
| RenderBackend.RenderInlinePng | src/backend.rs:210-224 | succeeds exactly when the diagram was generated and its file read back; the result is the image of the data URI of those bytes |
| RenderBackend.RenderEmbeddedPng | src/backend.rs:226-240 | succeeds exactly when the diagram was generated; the result is the image of the chapter-relative URL |
| RenderBackend.Render | src/backend.rs:165-175 | inline mode gives the data-URI image and file mode the URL image; it succeeds exactly when the renderer succeeded (and, inline, the file could be read); compile and directory failures give their errors |
| RenderBackend.InlineImageDecodes | src/backend.rs:210-224 | in inline mode the replacement's image URL decodes to the bytes of the rendered file |
| RenderBackend.EmbeddedImageLinksFile | src/backend.rs:226-240 | in file mode the replacement's image URL has no backslash and, followed from the chapter's directory, reaches the rendered file, when the chapter's directories and the output directory's components are ordinary names and no output-directory component holds a backslash |
| Base64.DecodeEncode | src/backend.rs:222 | decoding the standard base 64 encoding gives back the bytes |
| Base64.EncodeLength | src/backend.rs:222 | the encoding has four characters for every started group of three bytes |
| Paths.ResolveUps | src/backend.rs:261-266 | n leading ".." components climb out of exactly n trailing directories |
| Paths.DisplayNormalised | src/backend.rs:234-237 | replacing '\\' by '/' in a displayed path gives the '/'-joined path on either platform, when no component holds a backslash |
| Strings.ParseDecimal | src/backend.rs:69 | the decimal text of the diagram index parses back to the index |

## Left out

- src/main.rs is not part of this model: command-line parsing, the JSON protocol with mdBook, and the version check are I/O plumbing.
- src/config.rs is not part of this model: it only deserialises the book's configuration into the backend's fields.
- `D2::run` (src/lib.rs:39-61) is not part of this model. Parsing Markdown into events and serialising events back are done by the pulldown-cmark and pulldown-cmark-to-cmark libraries. Chapters enter the model as event sequences.
- Spawning the renderer, writing its stdin, waiting for it, creating the output directory and reading the PNG are effects. `Env` answers them with total functions, and the model keeps every error path they lead to. A failure carries an error kind; only the compile failure keeps its message text. The other `with_context` texts are not modelled.
- `String::from_utf8_lossy` on the renderer's stderr is not modelled: stderr is already text in the model.
- The `error!` log line in `end_block` is not modelled. Its effect on the output, an empty replacement, is.
- The chapter's `source_path` is always present in the model, as the `expect` in `end_block` assumes.
- mdBook's display of a section number comes from outside this repository. A present section is shown as each number followed by '.', as the test expecting "1.1.png" shows. The default, empty section is shown as "0". The proofs use only that "0" holds no '.', no '/' and no '\\': the file-name parse-back needs the first, and the file name's lack of separators, on which `EmbeddedUrlPortable` relies, needs the other two.
- `usize` arithmetic is modelled with unbounded naturals. The diagram index cannot realistically overflow.
- Paths are sequences of components. `output_dir` is taken to be relative and made of ordinary components, and so are the directories of a chapter's source path (mdBook gives it relative to the source directory, without "." or ".."); the lemmas about the relative path require this. Absolute `output_dir` values and platform path prefixes are not modelled.
- RenderBackend.DistinctFilePaths: file names are unique per section number, not per chapter. `SectionText` shows a chapter without a section number as "0". mdBook's prefix and suffix chapters have no number, and neither does a chapter numbered with an empty section. Any two such chapters write their first diagram to the same `01.png` (`UnnumberedChaptersCollide`). In file mode the later rendering overwrites the earlier, and both chapters link the same image. The model keeps this behaviour of the code and proves exactly when two diagrams share a file (`SharedFilePath`).
- RenderBackend.EmbeddedUrlPortable: the link is the '/'-joined relative path only when no output-directory component holds a backslash. The code replaces every '\\' of the displayed path by '/'. On a '/' platform a directory named with a backslash is then linked as two directories, so the link misses the file (`BackslashOutputDirSplits`). The model keeps this behaviour of the code.
- A failure to create the output directory is not fatal. It becomes that diagram's render error, the block is dropped like any failed diagram (`OutputDirFailureDropsBlock`), and the rest of the book proceeds.
- There is no timeout on the renderer in the code, so the model has none.
- The renderer's arguments follow the code's order: fonts, layout, theme, dark theme, "-", then the output path.
- RenderBackend.CompileError: on an outcome that is not an exit it uses an empty stderr. It is only ever used for an unsuccessful exit.
