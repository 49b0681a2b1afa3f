/**
 * The rich-text documents of the editor: a tree of nodes, each with a type,
 * an optional `text` and an optional list of children (`content`). An absent
 * `content` is `hasContent == false` with no children.
 */
module RichText {
  import opened Base
  import Strings

  datatype Node = Node(kind: string, text: Option<string>, hasContent: bool, content: seq<Node>)

  /** A project description as stored: a plain string, `null`, or a document. */
  datatype Description = NoDescription | PlainDescription(s: string) | DocDescription(doc: Node)

  /** JavaScript truthiness of a stored description. */
  predicate DescriptionTruthy(d: Description) {
    match d
    case NoDescription => false
    case PlainDescription(s) => s != ""
    case DocDescription(_) => true
  }

  /** A text leaf holding `s`. */
  function TextNode(s: string): Node {
    Node("text", Some(s), false, [])
  }

  /** A paragraph holding the one text leaf `s`. */
  function Paragraph(s: string): Node {
    Node("paragraph", None, true, [TextNode(s)])
  }

  function Paragraphs(lines: seq<string>): (ps: seq<Node>)
    ensures |ps| == |lines| && forall i :: 0 <= i < |lines| ==> ps[i] == Paragraph(lines[i])
  {
    if lines == [] then [] else [Paragraph(lines[0])] + Paragraphs(lines[1..])
  }

  /** `{ type: 'doc', content: lines.map(line => paragraph(line)) }`. */
  function DocFromLines(lines: seq<string>): Node {
    Node("doc", None, true, Paragraphs(lines))
  }

  /** The text of a node: its own `text` for a text node, else its children's texts run together. */
  function ExtractText(n: Node): string
    decreases n
  {
    if n.kind == "text" then n.text.GetOr("")
    else if n.hasContent then ExtractAll(n.content)
    else ""
  }

  /** `cs.map(extractText).join('')`. */
  function ExtractAll(cs: seq<Node>): string
    decreases cs
  {
    if cs == [] then "" else ExtractText(cs[0]) + ExtractAll(cs[1..])
  }

  /** `blocks.map(extractText)`. */
  function BlockTexts(blocks: seq<Node>): (ts: seq<string>)
    ensures |ts| == |blocks| && forall i :: 0 <= i < |blocks| ==> ts[i] == ExtractText(blocks[i])
  {
    if blocks == [] then [] else [ExtractText(blocks[0])] + BlockTexts(blocks[1..])
  }

  /** The plain text shown for a description: top-level blocks joined with a line break. */
  function DescriptionText(d: Description): string {
    match d
    case NoDescription => ""
    case PlainDescription(s) => s
    case DocDescription(doc) =>
      if doc.hasContent then Strings.Join(BlockTexts(doc.content), "\n") else ""
  }

  /** A document rebuilt from lines shows exactly those lines, one per line. */
  lemma DocFromLinesText(lines: seq<string>)
    ensures DescriptionText(DocDescription(DocFromLines(lines))) == Strings.Join(lines, "\n")
  {
    var ts := BlockTexts(Paragraphs(lines));
    forall i | 0 <= i < |lines| ensures ts[i] == lines[i] {
      assert ExtractAll([TextNode(lines[i])]) == lines[i] + ExtractAll([]);
    }
    assert ts == lines;
  }

  /** A text node shows its own text, or nothing when it has none. */
  lemma ExtractTextOfTextNode(n: Node)
    requires n.kind == "text"
    ensures ExtractText(n) == (if n.text.Some? then n.text.value else "")
  {
  }

  /** Children's texts are run together with no separator. */
  lemma {:induction false} ExtractAllAppend(a: seq<Node>, b: seq<Node>)
    ensures ExtractAll(a + b) == ExtractAll(a) + ExtractAll(b)
    decreases |a|
  {
    if a == [] {
      assert a + b == b;
    } else {
      assert (a + b)[0] == a[0] && (a + b)[1..] == a[1..] + b;
      ExtractAllAppend(a[1..], b);
    }
  }

  /** A plain-string description is shown as it is; one without blocks shows nothing. */
  lemma DescriptionTextCases(d: Description)
    ensures d.PlainDescription? ==> DescriptionText(d) == d.s
    ensures d.NoDescription? ==> DescriptionText(d) == ""
    ensures d.DocDescription? && !d.doc.hasContent ==> DescriptionText(d) == ""
    ensures d.DocDescription? && d.doc.hasContent && d.doc.content == [] ==> DescriptionText(d) == ""
  {
  }
}
