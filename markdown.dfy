/**
 * The part of pulldown-cmark's event model the preprocessor looks at or produces.
 * Events are what the Markdown parser yields for a chapter: the start and end of a
 * block or inline element, text, and everything else (collapsed into `OtherEvent`).
 */
module Markdown {

  /** How a code block was written: indented, or fenced with an info string. */
  datatype CodeBlockKind = Indented | Fenced(info: string)

  /** The form of a link or image reference; only the inline form is produced here. */
  datatype LinkType = Inline | OtherLinkType(name: string)

  datatype Tag =
    | Paragraph
    | CodeBlock(kind: CodeBlockKind)
    | Image(linkType: LinkType, destUrl: string, title: string, id: string)
    | OtherTag(name: string)

  datatype TagEnd =
    | ParagraphEnd
    | CodeBlockEnd
    | ImageEnd
    | OtherTagEnd(name: string)

  datatype Event =
    | Start(tag: Tag)
    | End(tagEnd: TagEnd)
    | Text(text: string)
    | OtherEvent(name: string)
}
