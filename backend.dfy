/**
 * The render backend of the d2 preprocessor: it names the PNG file of a diagram,
 * works out where that file lives (absolutely, and relative to the chapter that
 * shows it), builds the argument list of the `d2` renderer, formats a failed
 * compilation, and turns a rendered diagram into the Markdown events that replace
 * the code block, either as a file reference or as an inline data URI.
 *
 * The effects (creating the output directory, running the renderer, reading the
 * PNG back, and the platform's path separator) are the `Env` parameter.
 */
module RenderBackend {
  import opened Wrappers
  import opened Strings
  import opened Paths
  import opened Markdown
  import Base64

  /** The three font files handed to the renderer; their paths as text. */
  datatype Fonts = Fonts(regular: string, italic: string, bold: string)

  /** mdBook's hierarchical section number: [1, 2] is section 1.2. */
  datatype SectionNumber = SectionNumber(numbers: seq<nat>)

  /** The backend's configuration; it is built once and never changed. */
  datatype Backend = Backend(
    path: string,
    outputDir: Path,
    sourceDir: Path,
    layout: Option<string>,
    inline: bool,
    fonts: Option<Fonts>,
    themeId: Option<string>,
    darkThemeId: Option<string>)

  /** What the backend knows about one diagram: its chapter and its 1-based index there. */
  datatype RenderContext = RenderContext(
    path: Path,
    chapter: string,
    section: Option<SectionNumber>,
    diagramIndex: nat)

  // ---------------------------------------------------------------------------
  // File names

  /**
   * How mdBook displays the default, empty section number. mdBook is not part of
   * this model; the proofs below use only that this text holds no '.', '/' or '\\'.
   */
  const DEFAULT_SECTION_TEXT: string := "0"

  /** The numbers of a section, the absent section having none. */
  function SectionNumbers(section: Option<SectionNumber>): seq<nat> {
    match section
    case None => []
    case Some(s) => s.numbers
  }

  /** Each number in decimal followed by a dot: [1, 2] gives "1.2.". */
  function DottedNumbers(numbers: seq<nat>): (s: string)
    ensures forall i :: 0 <= i < |s| ==> IsDigit(s[i]) || s[i] == '.'
  {
    if |numbers| == 0 then ""
    else Decimal(numbers[0]) + "." + DottedNumbers(numbers[1..])
  }

  /** `section.cloned().unwrap_or_default()` as displayed. */
  function SectionText(section: Option<SectionNumber>): string {
    var numbers := SectionNumbers(section);
    if |numbers| == 0 then DEFAULT_SECTION_TEXT else DottedNumbers(numbers)
  }

  /** The file name of a diagram: section text, decimal index, ".png". */
  function Filename(section: Option<SectionNumber>, index: nat): (name: string)
    ensures |name| > 4 && name[|name| - 4..] == ".png"
    ensures forall i :: 0 <= i < |name| ==> name[i] != '/' && name[i] != '\\'
  {
    SectionText(section) + Decimal(index) + ".png"
  }

  function Decimals(numbers: seq<nat>): (parts: seq<string>)
    ensures |parts| == |numbers|
    ensures forall i :: 0 <= i < |parts| ==> parts[i] == Decimal(numbers[i])
  {
    seq(|numbers|, i requires 0 <= i < |numbers| => Decimal(numbers[i]))
  }

  /** Parses every string of a sequence as a decimal number. */
  function ParseAll(parts: seq<string>): Option<seq<nat>>
    decreases |parts|
  {
    if |parts| == 0 then Some([])
    else match (ParseNat(parts[0]), ParseAll(parts[1..]))
      case (Some(n), Some(ns)) => Some([n] + ns)
      case _ => None
  }

  /**
   * Recovers the section numbers and the diagram index from a file name, reading
   * the dot-separated fields; the inverse of `Filename`.
   */
  function ParseFilename(name: string): Option<(seq<nat>, nat)> {
    var fields := Split(name, '.');
    var n := |fields|;
    if n < 2 || fields[n - 1] != "png" then None
    else if n == 2 then
      var k := |DEFAULT_SECTION_TEXT|;
      if |fields[0]| > k && fields[0][..k] == DEFAULT_SECTION_TEXT then
        match ParseNat(fields[0][k..])
        case Some(index) => Some(([], index))
        case None => None
      else None
    else
      match (ParseAll(fields[..n - 2]), ParseNat(fields[n - 2]))
      case (Some(numbers), Some(index)) => Some((numbers, index))
      case _ => None
  }

  lemma {:induction false} ParseAllDecimals(numbers: seq<nat>)
    ensures ParseAll(Decimals(numbers)) == Some(numbers)
    decreases |numbers|
  {
    if |numbers| > 0 {
      ParseDecimal(numbers[0]);
      assert Decimals(numbers)[1..] == Decimals(numbers[1..]);
      ParseAllDecimals(numbers[1..]);
      assert [numbers[0]] + numbers[1..] == numbers;
    }
  }

  lemma {:induction false} DottedJoin(numbers: seq<nat>, rest: seq<string>)
    requires |rest| >= 1
    ensures DottedNumbers(numbers) + Join(rest, '.') == Join(Decimals(numbers) + rest, '.')
    decreases |numbers|
  {
    if |numbers| == 0 {
      assert Decimals(numbers) + rest == rest;
    } else {
      var parts := Decimals(numbers) + rest;
      assert parts[0] == Decimal(numbers[0]);
      assert parts[1..] == Decimals(numbers[1..]) + rest;
      DottedJoin(numbers[1..], rest);
    }
  }

  /** The index and the extension as dot-separated fields. */
  lemma IndexFields(index: nat)
    ensures Join([Decimal(index), "png"], '.') == Decimal(index) + ".png"
  {
    assert [Decimal(index), "png"][1..] == ["png"];
  }

  /** The dot-separated fields of the name of a diagram of the unnumbered section. */
  lemma UnnumberedFields(index: nat)
    ensures Filename(None, index) == Join([DEFAULT_SECTION_TEXT + Decimal(index), "png"], '.')
  {
    assert [DEFAULT_SECTION_TEXT + Decimal(index), "png"][1..] == ["png"];
  }

  /** The dot-separated fields of the name of a diagram of a numbered section. */
  lemma NumberedFields(section: SectionNumber, index: nat)
    requires |section.numbers| > 0
    ensures Filename(Some(section), index) == Join(Decimals(section.numbers) + [Decimal(index), "png"], '.')
  {
    IndexFields(index);
    DottedJoin(section.numbers, [Decimal(index), "png"]);
  }

  /** No field of a file name holds the separating dot. */
  lemma FieldsWithoutDots(numbers: seq<nat>, index: nat)
    ensures var fields := Decimals(numbers) + [Decimal(index), "png"];
      forall i :: 0 <= i < |fields| ==> '.' !in fields[i]
  {
    var fields := Decimals(numbers) + [Decimal(index), "png"];
    forall i | 0 <= i < |fields|
      ensures '.' !in fields[i]
    {
      if i < |numbers| {
        assert fields[i] == Decimal(numbers[i]);
      }
    }
  }

  /** The name of a diagram of the unnumbered section: "0", the index, ".png". */
  lemma UnnumberedRoundTrip(index: nat)
    ensures ParseFilename(Filename(None, index)) == Some(([], index))
  {
    UnnumberedFields(index);
    ParseDecimal(index);
    var head := DEFAULT_SECTION_TEXT + Decimal(index);
    SplitJoin([head, "png"], '.');
    assert head[..|DEFAULT_SECTION_TEXT|] == DEFAULT_SECTION_TEXT;
    assert head[|DEFAULT_SECTION_TEXT|..] == Decimal(index);
  }

  /** Fields for the section numbers, then the index, then "png", parse back. */
  lemma ParseNumberedFields(name: string, numbers: seq<nat>, index: nat)
    requires |numbers| > 0 && Split(name, '.') == Decimals(numbers) + [Decimal(index), "png"]
    ensures ParseFilename(name) == Some((numbers, index))
  {
    var fields := Decimals(numbers) + [Decimal(index), "png"];
    assert fields[|fields| - 1] == "png";
    assert fields[|fields| - 2] == Decimal(index);
    assert fields[..|fields| - 2] == Decimals(numbers);
    ParseDecimal(index);
    ParseAllDecimals(numbers);
  }

  /** The name of a diagram of a numbered section splits into its fields. */
  lemma NumberedSplit(section: SectionNumber, index: nat)
    requires |section.numbers| > 0
    ensures Split(Filename(Some(section), index), '.') == Decimals(section.numbers) + [Decimal(index), "png"]
  {
    var fields := Decimals(section.numbers) + [Decimal(index), "png"];
    FieldsWithoutDots(section.numbers, index);
    SplitJoin(fields, '.');
    NumberedFields(section, index);
  }

  /** The name of a diagram of a numbered section: one field per number. */
  lemma NumberedRoundTrip(section: SectionNumber, index: nat)
    requires |section.numbers| > 0
    ensures ParseFilename(Filename(Some(section), index)) == Some((section.numbers, index))
  {
    NumberedSplit(section, index);
    ParseNumberedFields(Filename(Some(section), index), section.numbers, index);
  }

  /** A file name gives back the section numbers and the index it was made from. */
  lemma FilenameRoundTrip(section: Option<SectionNumber>, index: nat)
    ensures ParseFilename(Filename(section, index)) == Some((SectionNumbers(section), index))
  {
    if |SectionNumbers(section)| == 0 {
      assert Filename(section, index) == Filename(None, index);
      UnnumberedRoundTrip(index);
    } else {
      NumberedRoundTrip(section.value, index);
    }
  }

  /**
   * Distinct diagrams get distinct files in the shared output directory: the file
   * name determines the section numbers and the index.
   */
  lemma FilenameInjective(s1: Option<SectionNumber>, i1: nat, s2: Option<SectionNumber>, i2: nat)
    requires Filename(s1, i1) == Filename(s2, i2)
    ensures SectionNumbers(s1) == SectionNumbers(s2) && i1 == i2
  {
    FilenameRoundTrip(s1, i1);
    FilenameRoundTrip(s2, i2);
  }

  /** The first diagram of chapter 1 is "1.1.png". */
  lemma FirstDiagramOfChapterOne()
    ensures Filename(Some(SectionNumber([1])), 1) == "1.1.png"
  {
    assert DottedNumbers([1]) == "1.";
  }

  // ---------------------------------------------------------------------------
  // Paths

  /** The directory that holds every diagram, `source_dir / output_dir`: below the source directory. */
  function OutputPath(b: Backend): (dir: Path)
    ensures |dir| == |b.sourceDir| + |b.outputDir|
    ensures dir[..|b.sourceDir|] == b.sourceDir && dir[|b.sourceDir|..] == b.outputDir
  {
    b.sourceDir + b.outputDir
  }

  /** `output_dir / filename`: the diagram's file inside the output directory. */
  function RelativeFilePath(b: Backend, ctx: RenderContext): (p: Path)
    ensures |p| == |b.outputDir| + 1 && p[..|b.outputDir|] == b.outputDir
    ensures p[|p| - 1] == Filename(ctx.section, ctx.diagramIndex)
  {
    b.outputDir + [Filename(ctx.section, ctx.diagramIndex)]
  }

  /** `source_dir / output_dir / filename`: the diagram's file in the output directory. */
  function FilePath(b: Backend, ctx: RenderContext): (p: Path)
    ensures |p| == |OutputPath(b)| + 1 && p[..|p| - 1] == OutputPath(b)
    ensures p[|p| - 1] == Filename(ctx.section, ctx.diagramIndex)
  {
    b.sourceDir + RelativeFilePath(b, ctx)
  }

  /** Two diagrams of different section or index are written to different files. */
  lemma DistinctFilePaths(b: Backend, c1: RenderContext, c2: RenderContext)
    requires SectionNumbers(c1.section) != SectionNumbers(c2.section) || c1.diagramIndex != c2.diagramIndex
    ensures FilePath(b, c1) != FilePath(b, c2)
  {
    if FilePath(b, c1) == FilePath(b, c2) {
      var n := |FilePath(b, c1)| - 1;
      assert FilePath(b, c1)[n] == FilePath(b, c2)[n];
      FilenameInjective(c1.section, c1.diagramIndex, c2.section, c2.diagramIndex);
    }
  }

  /**
   * Two diagrams share a file exactly when their section numbers and indices agree,
   * whatever their chapters: uniqueness holds per section number, not per chapter.
   */
  lemma SharedFilePath(b: Backend, c1: RenderContext, c2: RenderContext)
    ensures FilePath(b, c1) == FilePath(b, c2) <==>
      SectionNumbers(c1.section) == SectionNumbers(c2.section) && c1.diagramIndex == c2.diagramIndex
  {
    if SectionNumbers(c1.section) == SectionNumbers(c2.section) && c1.diagramIndex == c2.diagramIndex {
      assert SectionText(c1.section) == SectionText(c2.section);
    } else {
      DistinctFilePaths(b, c1, c2);
    }
  }

  /**
   * Chapters without a section number (mdBook's prefix and suffix chapters) all
   * display as the default section text, so the first diagram of any two of them
   * goes to the same file, "01.png" with mdBook's "0", and in file mode the later
   * one overwrites the earlier.
   */
  lemma UnnumberedChaptersCollide(b: Backend, c1: RenderContext, c2: RenderContext)
    requires c1.section == None && c2.section == None
    requires c1.diagramIndex == 1 && c2.diagramIndex == 1
    ensures FilePath(b, c1) == OutputPath(b) + [DEFAULT_SECTION_TEXT + "1.png"]
    ensures FilePath(b, c2) == FilePath(b, c1)
  {
    assert Decimal(1) == "1";
    assert Filename(None, 1) == DEFAULT_SECTION_TEXT + "1" + ".png";
    assert DEFAULT_SECTION_TEXT + "1" + ".png" == DEFAULT_SECTION_TEXT + "1.png";
    assert FilePath(b, c1) == OutputPath(b) + [Filename(None, 1)];
  }

  /** How many directories the chapter's file lies below the source directory. */
  function ChapterDepth(ctx: RenderContext): nat {
    |Parent(ctx.path)|
  }

  /** One ".." per directory level of the chapter, then `output_dir / filename`. */
  function ChapterRelativePath(b: Backend, ctx: RenderContext): Path {
    Ups(ChapterDepth(ctx)) + RelativeFilePath(b, ctx)
  }

  /** `calculate_relative_path_for_chapter`: pushes ".." once per level, then joins. */
  method CalculateRelativePathForChapter(b: Backend, ctx: RenderContext) returns (rel: Path)
    ensures rel == ChapterRelativePath(b, ctx)
  {
    var depth := |Parent(ctx.path)|;
    rel := [];
    for i := 0 to depth
      invariant |rel| == i
      invariant forall k :: 0 <= k < i ==> rel[k] == ".."
    {
      rel := rel + [".."];
    }
    rel := rel + RelativeFilePath(b, ctx);
  }

  /**
   * A root-level chapter gets no ".."; a chapter N directories deep gets exactly N,
   * followed by the output directory and the file name.
   */
  lemma ChapterRelativePathShape(b: Backend, ctx: RenderContext)
    requires forall i :: 0 <= i < |b.outputDir| ==> IsNormal(b.outputDir[i])
    ensures var rel := ChapterRelativePath(b, ctx); var depth := ChapterDepth(ctx);
      && |rel| == depth + |b.outputDir| + 1
      && (forall i :: 0 <= i < depth ==> rel[i] == "..")
      && (forall i :: depth <= i < |rel| ==> rel[i] != "..")
      && rel[depth..] == RelativeFilePath(b, ctx)
      && (|ctx.path| <= 1 ==> rel == RelativeFilePath(b, ctx))
  {
    var rel := ChapterRelativePath(b, ctx);
    var depth := ChapterDepth(ctx);
    forall i | depth <= i < |rel|
      ensures rel[i] != ".."
    {
      assert rel[i] == RelativeFilePath(b, ctx)[i - depth];
    }
  }

  /**
   * Followed from the chapter's directory, the relative path reaches exactly the
   * file the renderer wrote: the chapter's levels are climbed back out and the
   * output directory is entered from the source directory.
   */
  lemma RelativePathReachesFile(b: Backend, ctx: RenderContext)
    requires forall i :: 0 <= i < |Parent(ctx.path)| ==> IsNormal(Parent(ctx.path)[i])
    requires forall i :: 0 <= i < |b.outputDir| ==> IsNormal(b.outputDir[i])
    ensures Resolve(b.sourceDir + Parent(ctx.path), ChapterRelativePath(b, ctx)) == FilePath(b, ctx)
  {
    var rel := RelativeFilePath(b, ctx);
    ResolveUps(b.sourceDir, Parent(ctx.path), rel);
    ResolveNormal(b.sourceDir, rel);
  }

  /** The image URL in file mode: the relative path with every '\' turned into '/'. */
  function EmbeddedUrl(b: Backend, ctx: RenderContext, separator: char): (url: string)
    ensures '\\' !in url
  {
    Replace(Display(ChapterRelativePath(b, ctx), separator), '\\', "/")
  }

  /**
   * On a platform that separates with '/' or with '\', the URL is the relative path
   * joined with '/', the same on both.
   */
  lemma EmbeddedUrlPortable(b: Backend, ctx: RenderContext, separator: char)
    requires separator == '/' || separator == '\\'
    requires forall i :: 0 <= i < |b.outputDir| ==> '\\' !in b.outputDir[i]
    ensures EmbeddedUrl(b, ctx, separator) == Display(ChapterRelativePath(b, ctx), '/')
  {
    var rel := ChapterRelativePath(b, ctx);
    var depth := ChapterDepth(ctx);
    forall i | 0 <= i < |rel|
      ensures '\\' !in rel[i]
    {
      if depth <= i < depth + |b.outputDir| {
        assert rel[i] == b.outputDir[i - depth];
      } else if i == |rel| - 1 {
        var name := Filename(ctx.section, ctx.diagramIndex);
        assert rel[i] == name;
        assert forall k :: 0 <= k < |name| ==> name[k] != '\\';
      }
    }
    DisplayNormalised(rel, separator);
  }

  /**
   * The replace also rewrites a backslash inside a component: on a '/' platform an
   * output directory named "a\\b" is one directory, yet the link is not the path to
   * the file the renderer wrote, since every backslash of it has become '/'.
   */
  lemma BackslashOutputDirSplits(b: Backend, ctx: RenderContext)
    requires b.outputDir == ["a\\b"] && ctx.path == ["chapter_1.md"]
    requires ctx.section == Some(SectionNumber([1])) && ctx.diagramIndex == 1
    ensures Display(ChapterRelativePath(b, ctx), '/') == "a\\b/1.1.png"
    ensures EmbeddedUrl(b, ctx, '/') != Display(ChapterRelativePath(b, ctx), '/')
  {
    assert ChapterRelativePath(b, ctx) == ["a\\b", "1.1.png"] by {
      FirstDiagramOfChapterOne();
      assert ChapterDepth(ctx) == 0;
    }
    JoinTwo("a\\b", "1.1.png");
    assert "a\\b" + "/" + "1.1.png" == "a\\b/1.1.png";
    assert "a\\b/1.1.png"[1] == '\\';
  }

  lemma JoinTwo(first: string, second: string)
    ensures Join([first, second], '/') == first + "/" + second
  {
    assert [first, second][1..] == [second];
  }

  /** The test book's chapter at the source root links "d2/1.1.png". */
  lemma RootChapterUrl(b: Backend, ctx: RenderContext)
    requires b.outputDir == ["d2"] && ctx.path == ["chapter_1.md"]
    requires ctx.section == Some(SectionNumber([1])) && ctx.diagramIndex == 1
    ensures EmbeddedUrl(b, ctx, '/') == "d2/1.1.png"
  {
    assert ChapterRelativePath(b, ctx) == ["d2", "1.1.png"] by {
      FirstDiagramOfChapterOne();
      assert ChapterDepth(ctx) == 0;
      assert RelativeFilePath(b, ctx) == ["d2", "1.1.png"];
    }
    JoinTwo("d2", "1.1.png");
    EmbeddedUrlPortable(b, ctx, '/');
  }

  lemma JoinNested()
    ensures Join(["..", "d2", "1.1.png"], '/') == "../d2/1.1.png"
  {
    JoinTwo("d2", "1.1.png");
    assert ["..", "d2", "1.1.png"][1..] == ["d2", "1.1.png"];
    assert "d2" + "/" + "1.1.png" == "d2/1.1.png";
    assert ".." + "/" + "d2/1.1.png" == "../d2/1.1.png";
  }

  /** The same diagram in a chapter one directory down links "../d2/1.1.png". */
  lemma NestedChapterUrl(b: Backend, ctx: RenderContext)
    requires b.outputDir == ["d2"] && ctx.path == ["guide", "chapter_1.md"]
    requires ctx.section == Some(SectionNumber([1])) && ctx.diagramIndex == 1
    ensures EmbeddedUrl(b, ctx, '/') == "../d2/1.1.png"
  {
    assert ChapterRelativePath(b, ctx) == ["..", "d2", "1.1.png"] by {
      FirstDiagramOfChapterOne();
      assert ChapterDepth(ctx) == 1;
      assert RelativeFilePath(b, ctx) == ["d2", "1.1.png"];
    }
    JoinNested();
    EmbeddedUrlPortable(b, ctx, '/');
  }

  // ---------------------------------------------------------------------------
  // Renderer arguments

  function FontArgs(fonts: Option<Fonts>): seq<string> {
    match fonts
    case None => []
    case Some(f) => ["--font-regular", f.regular, "--font-italic", f.italic, "--font-bold", f.bold]
  }

  function FlagArgs(flag: string, value: Option<string>): seq<string> {
    match value
    case None => []
    case Some(v) => [flag, v]
  }

  /** Fonts, layout, theme and dark theme when configured, then "-" (read stdin). */
  function BasicArgList(b: Backend): seq<string> {
    FontArgs(b.fonts) + FlagArgs("--layout", b.layout) + FlagArgs("--theme", b.themeId)
      + FlagArgs("--dark-theme", b.darkThemeId) + ["-"]
  }

  /** `basic_args`: extends the list group by group. */
  method BasicArgs(b: Backend) returns (args: seq<string>)
    ensures args == BasicArgList(b)
  {
    args := [];
    if b.fonts.Some? {
      var fonts := b.fonts.value;
      args := args + ["--font-regular", fonts.regular, "--font-italic", fonts.italic, "--font-bold", fonts.bold];
    }
    if b.layout.Some? {
      args := args + ["--layout", b.layout.value];
    }
    if b.themeId.Some? {
      args := args + ["--theme", b.themeId.value];
    }
    if b.darkThemeId.Some? {
      args := args + ["--dark-theme", b.darkThemeId.value];
    }
    args := args + ["-"];
  }

  function Count<T>(o: Option<T>): nat {
    if o.Some? then 1 else 0
  }

  /** The argument list has one pair per configured option, six for fonts, and ends in "-". */
  lemma BasicArgListLength(b: Backend)
    ensures |BasicArgList(b)| == 1 + 6 * Count(b.fonts) + 2 * Count(b.layout)
      + 2 * Count(b.themeId) + 2 * Count(b.darkThemeId)
    ensures BasicArgList(b)[|BasicArgList(b)| - 1] == "-"
  {
  }

  /** The renderer options an argument list carries. */
  datatype RendererOptions = RendererOptions(
    fonts: Option<Fonts>,
    layout: Option<string>,
    themeId: Option<string>,
    darkThemeId: Option<string>)

  function TakeFonts(args: seq<string>): (Option<Fonts>, seq<string>) {
    if |args| >= 6 && args[0] == "--font-regular" && args[2] == "--font-italic" && args[4] == "--font-bold"
    then (Some(Fonts(args[1], args[3], args[5])), args[6..])
    else (None, args)
  }

  function TakeFlag(flag: string, args: seq<string>): (Option<string>, seq<string>) {
    if |args| >= 2 && args[0] == flag then (Some(args[1]), args[2..]) else (None, args)
  }

  /** Reads an argument list back, group by group in the order `basic_args` writes them. */
  function ParseBasicArgs(args: seq<string>): Option<RendererOptions> {
    var (fonts, a1) := TakeFonts(args);
    var (layout, a2) := TakeFlag("--layout", a1);
    var (theme, a3) := TakeFlag("--theme", a2);
    var (dark, a4) := TakeFlag("--dark-theme", a3);
    if a4 == ["-"] then Some(RendererOptions(fonts, layout, theme, dark)) else None
  }

  lemma TakeFontsArgs(fonts: Option<Fonts>, rest: seq<string>)
    requires |rest| > 0 && rest[0] != "--font-regular"
    ensures TakeFonts(FontArgs(fonts) + rest) == (fonts, rest)
  {
    if fonts.Some? {
      assert (FontArgs(fonts) + rest)[6..] == rest;
    } else {
      assert FontArgs(fonts) + rest == rest;
    }
  }

  lemma TakeFlagArgs(flag: string, value: Option<string>, rest: seq<string>)
    requires |rest| > 0 && rest[0] != flag
    ensures TakeFlag(flag, FlagArgs(flag, value) + rest) == (value, rest)
  {
    if value.Some? {
      assert (FlagArgs(flag, value) + rest)[2..] == rest;
    } else {
      assert FlagArgs(flag, value) + rest == rest;
    }
  }

  /** Every configured option can be read back from the argument list, in its place. */
  lemma ParseBasicArgList(b: Backend)
    ensures ParseBasicArgs(BasicArgList(b))
      == Some(RendererOptions(b.fonts, b.layout, b.themeId, b.darkThemeId))
  {
    var dark := FlagArgs("--dark-theme", b.darkThemeId) + ["-"];
    var theme := FlagArgs("--theme", b.themeId) + dark;
    var layout := FlagArgs("--layout", b.layout) + theme;
    assert BasicArgList(b) == FontArgs(b.fonts) + layout;
    assert |dark[0]| != |"--theme"| && |dark[0]| != |"--layout"| && |dark[0]| != |"--font-regular"|;
    assert |theme[0]| != |"--layout"| && |theme[0]| != |"--font-regular"|;
    assert |layout[0]| != |"--font-regular"|;
    TakeFontsArgs(b.fonts, layout);
    TakeFlagArgs("--layout", b.layout, theme);
    TakeFlagArgs("--theme", b.themeId, dark);
    TakeFlagArgs("--dark-theme", b.darkThemeId, ["-"]);
  }

  /** One run of the renderer: program, arguments, and the text written to its stdin. */
  datatype Invocation = Invocation(program: string, args: seq<string>, stdin: string)

  /** `generate_diagram`'s command: the basic arguments, then the absolute file path. */
  function DiagramInvocation(b: Backend, ctx: RenderContext, content: string, separator: char): (inv: Invocation)
    ensures inv.program == b.path && inv.stdin == content
    ensures |inv.args| >= 2 && inv.args[|inv.args| - 2] == "-"
    ensures inv.args[|inv.args| - 1] == Display(FilePath(b, ctx), separator)
  {
    BasicArgListLength(b);
    Invocation(b.path, BasicArgList(b) + [Display(FilePath(b, ctx), separator)], content)
  }

  /**
   * The renderer is the configured program, reads the diagram source from stdin
   * ("-"), writes to the diagram's absolute file path (the last argument), and
   * receives every configured option before that.
   */
  lemma DiagramInvocationArgs(b: Backend, ctx: RenderContext, content: string, separator: char)
    ensures var inv := DiagramInvocation(b, ctx, content, separator); var n := |inv.args|;
      && inv.program == b.path && inv.stdin == content
      && n >= 2 && inv.args[n - 1] == Display(FilePath(b, ctx), separator) && inv.args[n - 2] == "-"
      && ParseBasicArgs(inv.args[..n - 1]) == Some(RendererOptions(b.fonts, b.layout, b.themeId, b.darkThemeId))
  {
    var inv := DiagramInvocation(b, ctx, content, separator);
    BasicArgListLength(b);
    ParseBasicArgList(b);
    assert inv.args[..|inv.args| - 1] == BasicArgList(b);
  }

  // ---------------------------------------------------------------------------
  // Failure message

  /** Every line break is followed by two spaces. */
  predicate LinesIndented(s: string) {
    forall i :: 0 <= i < |s| && s[i] == '\n' ==> i + 2 < |s| && s[i + 1] == ' ' && s[i + 2] == ' '
  }

  /** "\n" and the renderer's stderr, each line break followed by two spaces. */
  function IndentStderr(stderr: string): string {
    Replace("\n" + stderr, '\n', "\n  ")
  }

  function FailureHeader(chapter: string, index: nat): string {
    "failed to compile D2 diagram (" + chapter + ", #" + Decimal(index) + "):"
  }

  /** The error of a renderer that exits unsuccessfully. */
  function FailureMessage(chapter: string, index: nat, stderr: string): (m: string)
    ensures var h := FailureHeader(chapter, index); |m| > |h| && m[..|h|] == h
    ensures LinesIndented(m[|FailureHeader(chapter, index)|..])
  {
    IndentLines("\n" + stderr);
    assert (FailureHeader(chapter, index) + IndentStderr(stderr))[|FailureHeader(chapter, index)|..] == IndentStderr(stderr);
    FailureHeader(chapter, index) + IndentStderr(stderr)
  }

  /** Drops the two spaces after each line break that is followed by two spaces. */
  function Unindent(s: string): string
    decreases |s|
  {
    if |s| == 0 then ""
    else if s[0] == '\n' && |s| >= 3 && s[1] == ' ' && s[2] == ' ' then "\n" + Unindent(s[3..])
    else [s[0]] + Unindent(s[1..])
  }

  lemma {:induction false} IndentLines(s: string)
    ensures LinesIndented(Replace(s, '\n', "\n  "))
    ensures Unindent(Replace(s, '\n', "\n  ")) == s
    decreases |s|
  {
    if |s| > 0 {
      var tail := Replace(s[1..], '\n', "\n  ");
      IndentLines(s[1..]);
      var r := Replace(s, '\n', "\n  ");
      if s[0] == '\n' {
        assert r == "\n  " + tail;
        assert r[3..] == tail;
        forall i | 3 <= i < |r| && r[i] == '\n'
          ensures i + 2 < |r| && r[i + 1] == ' ' && r[i + 2] == ' '
        {
          assert tail[i - 3] == '\n';
        }
      } else {
        assert r == [s[0]] + tail;
        assert r[1..] == tail;
        forall i | 1 <= i < |r| && r[i] == '\n'
          ensures i + 2 < |r| && r[i + 1] == ' ' && r[i + 2] == ' '
        {
          assert tail[i - 1] == '\n';
        }
      }
      assert [s[0]] + s[1..] == s;
    }
  }

  /**
   * The message names the chapter and the 1-based index, then carries the whole of
   * the renderer's stderr on the following lines, each indented by two spaces.
   */
  lemma FailureMessageParts(chapter: string, index: nat, stderr: string)
    ensures var m := FailureMessage(chapter, index, stderr); var h := FailureHeader(chapter, index);
      && |m| >= |h| + 3 && m[..|h|] == h && m[|h|..|h| + 3] == "\n  "
      && LinesIndented(m[|h|..])
      && Unindent(m[|h|..]) == "\n" + stderr
  {
    var h := FailureHeader(chapter, index);
    var m := FailureMessage(chapter, index, stderr);
    IndentLines("\n" + stderr);
    assert m[|h|..] == IndentStderr(stderr);
    ReplaceAppend("\n", stderr, '\n', "\n  ");
    assert Replace("\n", '\n', "\n  ") == "\n  ";
  }

  // ---------------------------------------------------------------------------
  // Replacement events

  /** `create_image_events`: a paragraph holding one inline image with empty title and id. */
  function ImageEvents(url: string): (events: seq<Event>)
    ensures ImageUrl(events) == Some(url)
  {
    [ Start(Paragraph),
      Start(Image(Inline, url, "", "")),
      End(ImageEnd),
      End(ParagraphEnd) ]
  }

  /** The image URL of a replacement fragment; None for any other event sequence. */
  function ImageUrl(events: seq<Event>): Option<string> {
    if |events| == 4 && events[0] == Start(Paragraph) && events[1].Start? && events[1].tag.Image?
      && events[1].tag.linkType == Inline && events[1].tag.title == "" && events[1].tag.id == ""
      && events[2] == End(ImageEnd) && events[3] == End(ParagraphEnd)
    then Some(events[1].tag.destUrl)
    else None
  }

  const DATA_URI_PREFIX: string := "data:image/png;base64,"

  /** The inline image: a PNG data URI carrying the base 64 encoding of the file's bytes. */
  function DataUri(bytes: seq<Base64.byte>): (uri: string)
    ensures |uri| == |DATA_URI_PREFIX| + 4 * ((|bytes| + 2) / 3)
    ensures uri[..|DATA_URI_PREFIX|] == DATA_URI_PREFIX
  {
    Base64.EncodeLength(bytes);
    DATA_URI_PREFIX + Base64.Encode(bytes)
  }

  function DecodeDataUri(uri: string): Option<seq<Base64.byte>> {
    var k := |DATA_URI_PREFIX|;
    if |uri| >= k && uri[..k] == DATA_URI_PREFIX then Base64.Decode(uri[k..]) else None
  }

  /** An inline image decodes to exactly the bytes it was made from. */
  lemma DataUriRoundTrip(bytes: seq<Base64.byte>)
    ensures DecodeDataUri(DataUri(bytes)) == Some(bytes)
  {
    var uri := DataUri(bytes);
    assert uri[..|DATA_URI_PREFIX|] == DATA_URI_PREFIX;
    assert uri[|DATA_URI_PREFIX|..] == Base64.Encode(bytes);
    Base64.DecodeEncode(bytes);
  }

  // ---------------------------------------------------------------------------
  // Rendering

  /** How a run of the renderer ended. */
  datatype ProcessOutcome =
    | NotSpawned
    | NoStdin
    | StdinBroken
    | NotAwaited
    | Exited(success: bool, stderr: string)

  /** The effects the backend depends on, as the host system answers them. */
  datatype Env = Env(
    separator: char,
    createDirAll: Path -> bool,
    run: Invocation -> ProcessOutcome,
    readFile: Path -> Option<seq<Base64.byte>>)

  datatype RenderError =
    | OutputDirFailed(dir: Path)
    | SpawnFailed
    | StdinUnavailable
    | StdinWriteFailed
    | WaitFailed
    | CompileFailed(message: string)
    | ReadFailed(file: Path)

  /** `run_process`: what the backend makes of the renderer's outcome. */
  function ProcessResult(ctx: RenderContext, outcome: ProcessOutcome): (r: Result<(), RenderError>)
    ensures r.Ok? <==> outcome.Exited? && outcome.success
    ensures outcome.Exited? && !outcome.success ==>
      r == Err(CompileFailed(FailureMessage(ctx.chapter, ctx.diagramIndex, outcome.stderr)))
    ensures !outcome.Exited? ==> r.Err? && !r.error.CompileFailed? && !r.error.OutputDirFailed? && !r.error.ReadFailed?
  {
    match outcome
    case NotSpawned => Err(SpawnFailed)
    case NoStdin => Err(StdinUnavailable)
    case StdinBroken => Err(StdinWriteFailed)
    case NotAwaited => Err(WaitFailed)
    case Exited(success, stderr) =>
      if success then Ok(())
      else Err(CompileFailed(FailureMessage(ctx.chapter, ctx.diagramIndex, stderr)))
  }

  /** The renderer ran in the output directory and exited successfully. */
  predicate Rendered(b: Backend, ctx: RenderContext, content: string, env: Env) {
    var outcome := env.run(DiagramInvocation(b, ctx, content, env.separator));
    env.createDirAll(OutputPath(b)) && outcome.Exited? && outcome.success
  }

  /** The renderer ran in the output directory and exited unsuccessfully. */
  predicate CompileFailure(b: Backend, ctx: RenderContext, content: string, env: Env) {
    var outcome := env.run(DiagramInvocation(b, ctx, content, env.separator));
    env.createDirAll(OutputPath(b)) && outcome.Exited? && !outcome.success
  }

  /** The error of a renderer that exited unsuccessfully. */
  function CompileError(b: Backend, ctx: RenderContext, content: string, env: Env): RenderError {
    var outcome := env.run(DiagramInvocation(b, ctx, content, env.separator));
    CompileFailed(FailureMessage(ctx.chapter, ctx.diagramIndex, if outcome.Exited? then outcome.stderr else ""))
  }

  /** `generate_diagram`: ensure the output directory, run the renderer, give the file path. */
  function GenerateDiagram(b: Backend, ctx: RenderContext, content: string, env: Env): (r: Result<Path, RenderError>)
    ensures r.Ok? <==> Rendered(b, ctx, content, env)
    ensures r.Ok? ==> r.value == FilePath(b, ctx)
    ensures CompileFailure(b, ctx, content, env) ==> r == Err(CompileError(b, ctx, content, env))
    ensures !env.createDirAll(OutputPath(b)) ==> r == Err(OutputDirFailed(OutputPath(b)))
  {
    if !env.createDirAll(OutputPath(b)) then Err(OutputDirFailed(OutputPath(b)))
    else match ProcessResult(ctx, env.run(DiagramInvocation(b, ctx, content, env.separator)))
      case Err(e) => Err(e)
      case Ok(_) => Ok(FilePath(b, ctx))
  }

  /** `render_inline_png`: the PNG's bytes, read back, become a data URI image. */
  function RenderInlinePng(b: Backend, ctx: RenderContext, content: string, env: Env): (r: Result<seq<Event>, RenderError>)
    ensures r.Ok? <==> Rendered(b, ctx, content, env) && env.readFile(FilePath(b, ctx)).Some?
    ensures r.Ok? ==> r.value == ImageEvents(DataUri(env.readFile(FilePath(b, ctx)).value))
    ensures !Rendered(b, ctx, content, env) ==> r.Err? && r.error == GenerateDiagram(b, ctx, content, env).error
    ensures Rendered(b, ctx, content, env) && env.readFile(FilePath(b, ctx)).None? ==> r == Err(ReadFailed(FilePath(b, ctx)))
  {
    match GenerateDiagram(b, ctx, content, env)
    case Err(e) => Err(e)
    case Ok(file) =>
      match env.readFile(file)
      case None => Err(ReadFailed(file))
      case Some(bytes) => Ok(ImageEvents(DataUri(bytes)))
  }

  /** `render_embedded_png`: the PNG is linked by its path relative to the chapter. */
  function RenderEmbeddedPng(b: Backend, ctx: RenderContext, content: string, env: Env): (r: Result<seq<Event>, RenderError>)
    ensures r.Ok? <==> Rendered(b, ctx, content, env)
    ensures r.Ok? ==> r.value == ImageEvents(EmbeddedUrl(b, ctx, env.separator))
    ensures !Rendered(b, ctx, content, env) ==> r.Err? && r.error == GenerateDiagram(b, ctx, content, env).error
  {
    match GenerateDiagram(b, ctx, content, env)
    case Err(e) => Err(e)
    case Ok(_) => Ok(ImageEvents(EmbeddedUrl(b, ctx, env.separator)))
  }

  /**
   * `render`: inline mode embeds the PNG's bytes, file mode links the PNG; either way
   * the result is one image in one paragraph. An unsuccessful exit of the renderer
   * is reported with the chapter, the index and the renderer's stderr.
   */
  function Render(b: Backend, ctx: RenderContext, content: string, env: Env): (r: Result<seq<Event>, RenderError>)
    ensures r.Ok? <==> Rendered(b, ctx, content, env) && (b.inline ==> env.readFile(FilePath(b, ctx)).Some?)
    ensures r.Ok? && b.inline ==> r.value == ImageEvents(DataUri(env.readFile(FilePath(b, ctx)).value))
    ensures r.Ok? && !b.inline ==> r.value == ImageEvents(EmbeddedUrl(b, ctx, env.separator))
    ensures CompileFailure(b, ctx, content, env) ==> r == Err(CompileError(b, ctx, content, env))
    ensures !env.createDirAll(OutputPath(b)) ==> r == Err(OutputDirFailed(OutputPath(b)))
    ensures b.inline && Rendered(b, ctx, content, env) && env.readFile(FilePath(b, ctx)).None? ==>
      r == Err(ReadFailed(FilePath(b, ctx)))
  {
    if b.inline then RenderInlinePng(b, ctx, content, env) else RenderEmbeddedPng(b, ctx, content, env)
  }

  /** In inline mode the image's URL decodes to exactly the bytes of the rendered file. */
  lemma InlineImageDecodes(b: Backend, ctx: RenderContext, content: string, env: Env)
    requires b.inline && Render(b, ctx, content, env).Ok?
    ensures var url := ImageUrl(Render(b, ctx, content, env).value);
      url.Some? && DecodeDataUri(url.value) == env.readFile(FilePath(b, ctx))
  {
    DataUriRoundTrip(env.readFile(FilePath(b, ctx)).value);
  }

  /**
   * In file mode the image's URL, followed from the chapter's directory, leads to
   * the file the renderer wrote.
   */
  lemma EmbeddedImageLinksFile(b: Backend, ctx: RenderContext, content: string, env: Env)
    requires !b.inline && Render(b, ctx, content, env).Ok?
    requires env.separator == '/' || env.separator == '\\'
    requires forall i :: 0 <= i < |Parent(ctx.path)| ==> IsNormal(Parent(ctx.path)[i])
    requires forall i :: 0 <= i < |b.outputDir| ==> IsNormal(b.outputDir[i]) && '\\' !in b.outputDir[i]
    ensures var url := ImageUrl(Render(b, ctx, content, env).value);
      && url.Some? && '\\' !in url.value
      && url.value == Display(ChapterRelativePath(b, ctx), '/')
      && Resolve(b.sourceDir + Parent(ctx.path), ChapterRelativePath(b, ctx)) == FilePath(b, ctx)
  {
    EmbeddedUrlPortable(b, ctx, env.separator);
    RelativePathReachesFile(b, ctx);
  }
}
