/**
 * The d2 block scanner: a state machine over one chapter's Markdown events that
 * drops the start of every code block fenced as `d2`, collects the block's text,
 * and at the block's end puts the backend's rendering in its place (or nothing,
 * when rendering fails). Every other event passes through unchanged.
 *
 * `D2BlockProcessor` is the scanner itself, with the three fields it updates in
 * place; `Step` and `Run` state what it does as functions of its state and of a
 * `Renderer` (what the backend answers for the k-th diagram), and the lemmas at the
 * end describe whole streams, whatever the renderer answers.
 */
module D2Preprocessor {
  import opened Wrappers
  import opened Markdown
  import opened Paths
  import opened RenderBackend

  /** The info string that marks a diagram's code block. */
  const D2_CODE_BLOCK_LANG: string := "d2"

  /** An mdBook chapter as the scanner uses it: name, section number, source path. */
  datatype Chapter = Chapter(name: string, number: Option<SectionNumber>, sourcePath: Path)

  /** What one chapter's pass is given: the backend, the chapter, the host's effects. */
  datatype Pass = Pass(backend: Backend, chapter: Chapter, env: Env)

  /**
   * The start of a code block fenced with exactly "d2"; the text is compared, not its
   * form. It is neither text nor a block end.
   */
  predicate IsD2BlockStart(e: Event)
    ensures IsD2BlockStart(e) <==> e == Start(CodeBlock(Fenced(D2_CODE_BLOCK_LANG)))
    ensures IsD2BlockStart(e) ==> !IsTextEvent(e) && !IsBlockEnd(e)
  {
    e.Start? && e.tag.CodeBlock? && e.tag.kind.Fenced? && e.tag.kind.info == D2_CODE_BLOCK_LANG
  }

  /** A text event, whatever it holds; it is never a block end. */
  predicate IsTextEvent(e: Event)
    ensures IsTextEvent(e) <==> exists t :: e == Text(t)
    ensures IsTextEvent(e) ==> !IsBlockEnd(e)
  {
    e.Text?
  }

  /** The end of any code block, fenced or indented: all such ends are one event. */
  predicate IsBlockEnd(e: Event)
    ensures IsBlockEnd(e) <==> e == End(CodeBlockEnd)
  {
    e.End? && e.tagEnd.CodeBlockEnd?
  }

  /** The render context of the `index`-th diagram of the pass's chapter. */
  function Context(pass: Pass, index: nat): RenderContext {
    RenderContext(pass.chapter.sourcePath, pass.chapter.name, pass.chapter.number, index)
  }

  /**
   * What replaces a finished block: the backend's events, or none when rendering
   * fails. The block vanishes exactly when rendering fails; otherwise it becomes one
   * image.
   */
  function Replacement(pass: Pass, index: nat, content: string): (events: seq<Event>)
    ensures events == [] <==> Render(pass.backend, Context(pass, index), content, pass.env).Err?
    ensures events != [] ==> ImageUrl(events).Some?
  {
    match Render(pass.backend, Context(pass, index), content, pass.env)
    case Ok(events) => events
    case Err(_) => []
  }

  /**
   * A failure to create the output directory is not fatal: the block is dropped like
   * any other failed diagram, and scanning goes on.
   */
  lemma OutputDirFailureDropsBlock(pass: Pass, index: nat, content: string)
    requires !pass.env.createDirAll(OutputPath(pass.backend))
    ensures Replacement(pass, index, content) == []
  {
  }

  /**
   * What the scanner asks for at a block's end: the events that replace the
   * `index`-th diagram of the chapter, given the diagram's text.
   */
  type Renderer = (nat, string) -> seq<Event>

  /** The renderer of a pass: the backend's rendering of the chapter's diagrams. */
  function BackendRenderer(pass: Pass): (render: Renderer)
    ensures forall index, content :: render(index, content) == Replacement(pass, index, content)
  {
    (index: nat, content: string) => Replacement(pass, index, content)
  }

  // ---------------------------------------------------------------------------
  // The scanner as a function of its state

  datatype ScanState = ScanState(inBlock: bool, content: string, index: nat)

  /** Outside any block, nothing collected, no diagram seen yet. */
  const INITIAL: ScanState := ScanState(false, "", 0)

  /** A state together with the events emitted so far. */
  datatype Scan = Scan(state: ScanState, output: seq<Event>)

  /** One event: the d2 start is checked first, then text and block end inside a block. */
  function Step(render: Renderer, st: ScanState, e: Event): (r: Scan)
    ensures r.state.index == if IsD2BlockStart(e) then st.index + 1 else st.index
    ensures r.state.inBlock <==> IsD2BlockStart(e) || (st.inBlock && !IsBlockEnd(e))
    ensures r.output == [] || r.output == [e] || r.output == render(st.index, st.content)
  {
    if IsD2BlockStart(e) then Scan(ScanState(true, "", st.index + 1), [])
    else if st.inBlock && IsTextEvent(e) then Scan(st.(content := st.content + e.text), [])
    else if st.inBlock && IsBlockEnd(e) then Scan(st.(inBlock := false), render(st.index, st.content))
    else Scan(st, [e])
  }

  /** A stream of events, one step after the other, the emitted events concatenated. */
  function Run(render: Renderer, st: ScanState, events: seq<Event>): Scan
    decreases |events|
  {
    if |events| == 0 then Scan(st, [])
    else
      var before := Run(render, st, events[..|events| - 1]);
      var last := Step(render, before.state, events[|events| - 1]);
      Scan(last.state, before.output + last.output)
  }

  // ---------------------------------------------------------------------------
  // The scanner as an object

  class D2BlockProcessor {
    const pass: Pass
    var inBlock: bool
    var diagramContent: string
    var diagramIndex: nat

    function State(): ScanState
      reads this
    {
      ScanState(inBlock, diagramContent, diagramIndex)
    }

    constructor (pass: Pass)
      ensures this.pass == pass
      ensures !inBlock && diagramContent == "" && diagramIndex == 0
    {
      this.pass := pass;
      inBlock := false;
      diagramContent := "";
      diagramIndex := 0;
    }

    /** `process_event`: the events to emit for one input event, possibly none. */
    method ProcessEvent(event: Event) returns (out: seq<Event>)
      modifies this
      ensures IsD2BlockStart(event) ==>
        inBlock && diagramContent == "" && diagramIndex == old(diagramIndex) + 1 && out == []
      ensures !IsD2BlockStart(event) && old(inBlock) && IsTextEvent(event) ==>
        inBlock && diagramContent == old(diagramContent) + event.text
        && diagramIndex == old(diagramIndex) && out == []
      ensures !IsD2BlockStart(event) && old(inBlock) && IsBlockEnd(event) ==>
        !inBlock && diagramContent == old(diagramContent) && diagramIndex == old(diagramIndex)
        && out == Replacement(pass, old(diagramIndex), old(diagramContent))
      ensures !IsD2BlockStart(event) && !(old(inBlock) && (IsTextEvent(event) || IsBlockEnd(event))) ==>
        State() == old(State()) && out == [event]
    {
      if IsD2BlockStart(event) {
        StartBlock();
        out := [];
      } else if inBlock && IsTextEvent(event) {
        AccumulateContent(event);
        out := [];
      } else if inBlock && IsBlockEnd(event) {
        out := EndBlock();
      } else {
        out := [event];
      }
    }

    /** `start_block`: enter a block with an empty buffer and the next diagram index. */
    method StartBlock()
      modifies this
      ensures inBlock && diagramContent == "" && diagramIndex == old(diagramIndex) + 1
    {
      inBlock := true;
      diagramContent := "";
      diagramIndex := diagramIndex + 1;
    }

    /** `accumulate_content`: append a text event's text to the buffer. */
    method AccumulateContent(event: Event)
      modifies this
      ensures inBlock == old(inBlock) && diagramIndex == old(diagramIndex)
      ensures diagramContent == old(diagramContent) + (if event.Text? then event.text else "")
    {
      if event.Text? {
        diagramContent := diagramContent + event.text;
      }
    }

    /** `end_block`: leave the block and render what it held; a failure yields nothing. */
    method EndBlock() returns (out: seq<Event>)
      modifies this
      ensures !inBlock && diagramContent == old(diagramContent) && diagramIndex == old(diagramIndex)
      ensures out == Replacement(pass, diagramIndex, diagramContent)
    {
      inBlock := false;
      var ctx := Context(pass, diagramIndex);
      var result := Render(pass.backend, ctx, diagramContent, pass.env);
      out := if result.Ok? then result.value else [];
    }
  }

  /** `process_events`: one processor per chapter, its outputs concatenated in order. */
  method ProcessEvents(pass: Pass, events: seq<Event>) returns (out: seq<Event>)
    ensures out == Run(BackendRenderer(pass), INITIAL, events).output
  {
    var processor := new D2BlockProcessor(pass);
    out := [];
    for i := 0 to |events|
      invariant processor.pass == pass
      invariant Run(BackendRenderer(pass), INITIAL, events[..i]) == Scan(processor.State(), out)
    {
      var emitted := processor.ProcessEvent(events[i]);
      assert events[..i + 1][..i] == events[..i];
      out := out + emitted;
    }
    assert events[..|events|] == events;
  }

  // ---------------------------------------------------------------------------
  // Whole streams

  /** Running over two streams in turn is running over their concatenation. */
  lemma {:induction false} RunAppend(render: Renderer, st: ScanState, a: seq<Event>, b: seq<Event>)
    ensures var first := Run(render, st, a); var second := Run(render, first.state, b);
      Run(render, st, a + b) == Scan(second.state, first.output + second.output)
    decreases |b|
  {
    if |b| == 0 {
      assert a + b == a;
    } else {
      var b' := b[..|b| - 1];
      assert (a + b)[..|a + b| - 1] == a + b';
      assert (a + b)[|a + b| - 1] == b[|b| - 1];
      RunAppend(render, st, a, b');
    }
  }

  lemma RunSingle(render: Renderer, st: ScanState, e: Event)
    ensures Run(render, st, [e]) == Step(render, st, e)
  {
    assert [e][..0] == [];
  }

  /** How many d2 blocks a stream starts. */
  function CountD2Starts(events: seq<Event>): nat
    decreases |events|
  {
    if |events| == 0 then 0
    else CountD2Starts(events[..|events| - 1]) + (if IsD2BlockStart(events[|events| - 1]) then 1 else 0)
  }

  /**
   * The diagram index only ever moves at a d2 start, by one, whatever the renderer
   * answers: after a stream it has grown by the number of d2 starts in it.
   */
  lemma {:induction false} RunIndex(render: Renderer, st: ScanState, events: seq<Event>)
    ensures Run(render, st, events).state.index == st.index + CountD2Starts(events)
    decreases |events|
  {
    if |events| > 0 {
      RunIndex(render, st, events[..|events| - 1]);
    }
  }

  /** Being inside a block, having started outside, takes at least one d2 start. */
  lemma {:induction false} InBlockAfterStart(render: Renderer, st: ScanState, events: seq<Event>)
    requires !st.inBlock && Run(render, st, events).state.inBlock
    ensures CountD2Starts(events) >= 1
    decreases |events|
  {
    if |events| > 0 && !IsD2BlockStart(events[|events| - 1]) {
      InBlockAfterStart(render, st, events[..|events| - 1]);
    }
  }

  /**
   * The k-th diagram of a chapter is rendered as diagram k: a block end reached
   * inside a block renders the buffer with the number of d2 starts seen so far,
   * earlier failures included.
   */
  lemma BlockEndRendersCount(render: Renderer, before: seq<Event>, e: Event)
    requires IsBlockEnd(e) && Run(render, INITIAL, before).state.inBlock
    ensures var prior := Run(render, INITIAL, before);
      && CountD2Starts(before) >= 1
      && Run(render, INITIAL, before + [e]).output
         == prior.output + render(CountD2Starts(before), prior.state.content)
      && !Run(render, INITIAL, before + [e]).state.inBlock
  {
    RunIndex(render, INITIAL, before);
    InBlockAfterStart(render, INITIAL, before);
    RunAppend(render, INITIAL, before, [e]);
    RunSingle(render, Run(render, INITIAL, before).state, e);
  }

  /** A stream without d2 blocks comes out unchanged. */
  lemma {:induction false} RunWithoutD2Blocks(render: Renderer, st: ScanState, events: seq<Event>)
    requires !st.inBlock
    requires forall i :: 0 <= i < |events| ==> !IsD2BlockStart(events[i])
    ensures Run(render, st, events) == Scan(st, events)
    decreases |events|
  {
    if |events| > 0 {
      RunWithoutD2Blocks(render, st, events[..|events| - 1]);
      assert events[..|events| - 1] + [events[|events| - 1]] == events;
    }
  }

  /** The text of the text events of a stream, in arrival order. */
  function Texts(events: seq<Event>): string
    decreases |events|
  {
    if |events| == 0 then ""
    else
      var e := events[|events| - 1];
      Texts(events[..|events| - 1]) + (if e.Text? then e.text else "")
  }

  /** The events of a stream other than its text events, in order. */
  function NonTexts(events: seq<Event>): seq<Event>
    decreases |events|
  {
    if |events| == 0 then []
    else
      var e := events[|events| - 1];
      NonTexts(events[..|events| - 1]) + (if e.Text? then [] else [e])
  }

  /** Inside a block, text events are collected in order and nothing else is kept back. */
  lemma {:induction false} RunInBlock(render: Renderer, st: ScanState, body: seq<Event>)
    requires st.inBlock
    requires forall i :: 0 <= i < |body| ==> !IsD2BlockStart(body[i]) && !IsBlockEnd(body[i])
    ensures Run(render, st, body) == Scan(st.(content := st.content + Texts(body)), NonTexts(body))
    decreases |body|
  {
    if |body| > 0 {
      RunInBlock(render, st, body[..|body| - 1]);
      var e := body[|body| - 1];
      if e.Text? {
        assert st.content + Texts(body) == st.content + Texts(body[..|body| - 1]) + e.text;
      } else {
        assert st.content + Texts(body) == st.content + Texts(body[..|body| - 1]);
      }
    } else {
      assert st.content + "" == st.content;
    }
  }

  /** The start event of a d2 diagram's fenced code block. */
  function D2Start(): Event {
    Start(CodeBlock(Fenced(D2_CODE_BLOCK_LANG)))
  }

  /** A d2 start alone: inside a block, nothing collected, the next index, nothing emitted. */
  lemma RunD2Start(render: Renderer, st: ScanState)
    ensures Run(render, st, [D2Start()]) == Scan(ScanState(true, "", st.index + 1), [])
  {
    RunSingle(render, st, D2Start());
  }

  /** The start of a d2 block and its body: the text collected, the rest passed on. */
  lemma RunOpening(render: Renderer, st: ScanState, body: seq<Event>)
    requires forall i :: 0 <= i < |body| ==> !IsD2BlockStart(body[i]) && !IsBlockEnd(body[i])
    ensures Run(render, st, [D2Start()] + body) == Scan(ScanState(true, Texts(body), st.index + 1), NonTexts(body))
  {
    var entered := ScanState(true, "", st.index + 1);
    RunD2Start(render, st);
    RunAppend(render, st, [D2Start()], body);
    RunInBlock(render, entered, body);
    assert entered.(content := entered.content + Texts(body)) == ScanState(true, Texts(body), st.index + 1);
    assert [] + NonTexts(body) == NonTexts(body);
  }

  /**
   * A whole d2 block emits its non-text events (a well-formed code block has none)
   * and then its replacement, rendered from the block's text with the next index.
   */
  lemma RunBlock(render: Renderer, st: ScanState, body: seq<Event>)
    requires forall i :: 0 <= i < |body| ==> !IsD2BlockStart(body[i]) && !IsBlockEnd(body[i])
    ensures Run(render, st, [D2Start()] + body + [End(CodeBlockEnd)])
      == Scan(ScanState(false, Texts(body), st.index + 1),
              NonTexts(body) + render(st.index + 1, Texts(body)))
  {
    var filled := ScanState(true, Texts(body), st.index + 1);
    RunOpening(render, st, body);
    RunSingle(render, filled, End(CodeBlockEnd));
    RunAppend(render, st, [D2Start()] + body, [End(CodeBlockEnd)]);
  }

  /**
   * A chapter seen as a sequence of pieces: single events outside any diagram (none
   * of them a d2 start), and whole d2 blocks whose bodies neither start another d2
   * block nor end a code block.
   */
  datatype Piece = Passed(event: Event) | Diagram(body: seq<Event>)

  predicate WellFormedPiece(piece: Piece) {
    match piece
    case Passed(e) => !IsD2BlockStart(e)
    case Diagram(body) => forall i :: 0 <= i < |body| ==> !IsD2BlockStart(body[i]) && !IsBlockEnd(body[i])
  }

  function PieceEvents(piece: Piece): seq<Event> {
    match piece
    case Passed(e) => [e]
    case Diagram(body) => [D2Start()] + body + [End(CodeBlockEnd)]
  }

  function Flatten(pieces: seq<Piece>): seq<Event>
    decreases |pieces|
  {
    if |pieces| == 0 then [] else PieceEvents(pieces[0]) + Flatten(pieces[1..])
  }

  function DiagramCount(pieces: seq<Piece>): nat
    decreases |pieces|
  {
    if |pieces| == 0 then 0 else (if pieces[0].Diagram? then 1 else 0) + DiagramCount(pieces[1..])
  }

  /** What one piece should come out as: a passed event itself, a diagram its rendering. */
  function PieceOutput(render: Renderer, index: nat, piece: Piece): seq<Event> {
    match piece
    case Passed(e) => [e]
    case Diagram(body) => NonTexts(body) + render(index + 1, Texts(body))
  }

  /** The scanner's state after a piece: a diagram leaves its text and the next index. */
  function PieceState(st: ScanState, piece: Piece): ScanState {
    match piece
    case Passed(_) => st
    case Diagram(body) => ScanState(false, Texts(body), st.index + 1)
  }

  /**
   * The chapter as it should come out: passed events in place, each diagram
   * replaced by its rendering, diagrams numbered on from `index` in document order.
   */
  function Expected(render: Renderer, index: nat, pieces: seq<Piece>): seq<Event>
    decreases |pieces|
  {
    if |pieces| == 0 then []
    else
      var next := if pieces[0].Diagram? then index + 1 else index;
      PieceOutput(render, index, pieces[0]) + Expected(render, next, pieces[1..])
  }

  /** One well-formed piece, scanned from outside any block. */
  lemma RunPiece(render: Renderer, st: ScanState, piece: Piece)
    requires !st.inBlock && WellFormedPiece(piece)
    ensures Run(render, st, PieceEvents(piece)) == Scan(PieceState(st, piece), PieceOutput(render, st.index, piece))
  {
    match piece
    case Passed(e) =>
      RunSingle(render, st, e);
    case Diagram(body) =>
      RunBlock(render, st, body);
  }

  /** The scan of a chapter split after its first piece. */
  lemma RunPieces(render: Renderer, st: ScanState, pieces: seq<Piece>)
    requires |pieces| > 0 && !st.inBlock && WellFormedPiece(pieces[0])
    ensures var mid := PieceState(st, pieces[0]);
      var tail := Run(render, mid, Flatten(pieces[1..]));
      Run(render, st, Flatten(pieces)) == Scan(tail.state, PieceOutput(render, st.index, pieces[0]) + tail.output)
  {
    assert Flatten(pieces) == PieceEvents(pieces[0]) + Flatten(pieces[1..]);
    RunPiece(render, st, pieces[0]);
    RunAppend(render, st, PieceEvents(pieces[0]), Flatten(pieces[1..]));
  }

  lemma TailWellFormed(pieces: seq<Piece>)
    requires |pieces| > 0 && forall i :: 0 <= i < |pieces| ==> WellFormedPiece(pieces[i])
    ensures forall i :: 0 <= i < |pieces[1..]| ==> WellFormedPiece(pieces[1..][i])
  {
    forall i | 0 <= i < |pieces[1..]|
      ensures WellFormedPiece(pieces[1..][i])
    {
      assert pieces[1..][i] == pieces[i + 1];
    }
  }

  /** The chapter after its first piece, given what the rest of it comes out as. */
  lemma DocumentStep(render: Renderer, st: ScanState, pieces: seq<Piece>, tail: Scan)
    requires |pieces| > 0 && !st.inBlock && WellFormedPiece(pieces[0])
    requires tail == Run(render, PieceState(st, pieces[0]), Flatten(pieces[1..]))
    requires tail.output == Expected(render, PieceState(st, pieces[0]).index, pieces[1..])
    requires !tail.state.inBlock
    requires tail.state.index == PieceState(st, pieces[0]).index + DiagramCount(pieces[1..])
    ensures var result := Run(render, st, Flatten(pieces));
      && result.output == Expected(render, st.index, pieces)
      && !result.state.inBlock
      && result.state.index == st.index + DiagramCount(pieces)
  {
    var mid := PieceState(st, pieces[0]);
    var next := if pieces[0].Diagram? then st.index + 1 else st.index;
    assert !mid.inBlock && mid.index == next by {
      match pieces[0]
      case Passed(_) =>
      case Diagram(_) =>
    }
    assert Expected(render, st.index, pieces)
      == PieceOutput(render, st.index, pieces[0]) + Expected(render, next, pieces[1..]);
    assert DiagramCount(pieces) == (if pieces[0].Diagram? then 1 else 0) + DiagramCount(pieces[1..]);
    RunPieces(render, st, pieces);
  }

  /**
   * The scanner turns a chapter into the expected chapter: everything outside the
   * d2 blocks unchanged and in place, each d2 block replaced by the rendering of its
   * text as the next diagram, whether or not earlier renderings failed.
   */
  lemma {:induction false} RunDocument(render: Renderer, st: ScanState, pieces: seq<Piece>)
    requires !st.inBlock
    requires forall i :: 0 <= i < |pieces| ==> WellFormedPiece(pieces[i])
    ensures var result := Run(render, st, Flatten(pieces));
      && result.output == Expected(render, st.index, pieces)
      && !result.state.inBlock
      && result.state.index == st.index + DiagramCount(pieces)
    decreases |pieces|
  {
    if |pieces| > 0 {
      assert WellFormedPiece(pieces[0]);
      TailWellFormed(pieces);
      var mid := PieceState(st, pieces[0]);
      RunDocument(render, mid, pieces[1..]);
      DocumentStep(render, st, pieces, Run(render, mid, Flatten(pieces[1..])));
    }
  }

  /** A block holding one text event: its content is that text, nothing is passed. */
  lemma SingleTextBody(t: string)
    ensures Texts([Text(t)]) == t && NonTexts([Text(t)]) == []
  {
    assert [Text(t)][..0] == [];
  }

  /** A chapter of one diagram whose body is a single text event. */
  lemma OneDiagramFlatten(t: string)
    ensures Flatten([Diagram([Text(t)])]) == [D2Start(), Text(t), End(CodeBlockEnd)]
  {
    assert [Diagram([Text(t)])][1..] == [];
  }

  lemma OneDiagramExpected(render: Renderer, index: nat, t: string)
    ensures Expected(render, index, [Diagram([Text(t)])]) == render(index + 1, t)
  {
    assert [Diagram([Text(t)])][1..] == [];
    SingleTextBody(t);
  }

  /** The pieces of a chapter of two single-text diagrams. */
  function TwoDiagramPieces(first: string, second: string): seq<Piece> {
    [Diagram([Text(first)]), Diagram([Text(second)])]
  }

  lemma TwoDiagramsFlatten(first: string, second: string)
    ensures Flatten(TwoDiagramPieces(first, second))
      == [D2Start(), Text(first), End(CodeBlockEnd), D2Start(), Text(second), End(CodeBlockEnd)]
  {
    var pieces := TwoDiagramPieces(first, second);
    assert pieces[1..] == [Diagram([Text(second)])];
    OneDiagramFlatten(second);
  }

  lemma TwoDiagramsExpected(render: Renderer, first: string, second: string)
    ensures Expected(render, 0, TwoDiagramPieces(first, second))
      == render(1, first) + render(2, second)
  {
    var pieces := TwoDiagramPieces(first, second);
    assert pieces[1..] == [Diagram([Text(second)])];
    OneDiagramExpected(render, 1, second);
    SingleTextBody(first);
  }

  /** Two diagrams in one chapter are rendered as diagrams 1 and 2, in document order. */
  lemma TwoDiagrams(render: Renderer, first: string, second: string)
    ensures var events := [D2Start(), Text(first), End(CodeBlockEnd), D2Start(), Text(second), End(CodeBlockEnd)];
      Run(render, INITIAL, events).output == render(1, first) + render(2, second)
  {
    TwoDiagramsFlatten(first, second);
    TwoDiagramsExpected(render, first, second);
    RunDocument(render, INITIAL, TwoDiagramPieces(first, second));
  }

  /** Different diagrams of a chapter are written to different files. */
  lemma DistinctDiagramFiles(pass: Pass, i: nat, j: nat)
    requires i != j
    ensures FilePath(pass.backend, Context(pass, i)) != FilePath(pass.backend, Context(pass, j))
  {
    DistinctFilePaths(pass.backend, Context(pass, i), Context(pass, j));
  }
}
