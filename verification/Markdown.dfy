/** The markdown node tree handed to the chunker: the parts of a node that the section builder,
    the splitter and the packer look at. */
module Markdown {
  import opened Sequences

  /** Half-open range of character offsets in the document. */
  datatype Span = Span(start: nat, end: nat)

  datatype Kind =
    | Heading | Paragraph | Bullets | BulletItem | Quote
    | Table | TableHeader | TableRow | TableCell | Code | Formula | Figure | Inline

  /** A node keeps its parser id, or is the k-th part of the node it was cut from. */
  datatype NodeId = Parsed(name: string) | PartOf(source: NodeId, index: nat)

  datatype Node = Node(
    id: NodeId,
    kind: Kind,
    text: string,
    span: Option<Span>,          // from the first to the last source offset, when it has any
    children: seq<Node>,
    level: int,                  // "heading_level"
    title: string,
    tableHeader: string,         // "table_header_text", empty when absent
    fenced: bool,
    markup: string
  )

  /** Python's str.isspace for one character. */
  predicate IsSpace(c: char) {
    || '\t' <= c <= '\r'
    || '\U{1C}' <= c <= ' '
    || c == '\U{85}' || c == '\U{A0}' || c == '\U{1680}'
    || '\U{2000}' <= c <= '\U{200A}'
    || c == '\U{2028}' || c == '\U{2029}' || c == '\U{202F}' || c == '\U{205F}' || c == '\U{3000}'
  }

  /** `not text.strip()` */
  predicate Blank(text: string) {
    forall i :: 0 <= i < |text| ==> IsSpace(text[i])
  }

  function Headings(nodes: seq<Node>): seq<Node> {
    if nodes == [] then []
    else (if nodes[0].kind == Heading then [nodes[0]] else []) + Headings(nodes[1..])
  }
}
