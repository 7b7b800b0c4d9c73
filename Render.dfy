/** `createNodeElement` and the markup `updateNodes` builds from a payload
    (public/js/script.js). */
module Render {
  import opened Escape

  /** One entry of a status-update payload. */
  datatype Node = Node(name: string, status: string)

  /** `toUpperCase` on one character, for the ASCII letters. */
  function UpperChar(x: char): (y: char)
    ensures !('a' <= y <= 'z')
    ensures 'a' <= x <= 'z' || y == x
    ensures 'a' <= x <= 'z' ==> y as int == x as int - 32
  {
    if 'a' <= x <= 'z' then (x as int - 32) as char else x
  }

  /** `String.prototype.toUpperCase`: the same length, each character
      upper-cased in place. */
  function ToUpper(s: string): (r: string)
    ensures |r| == |s|
    ensures forall i :: 0 <= i < |s| ==> r[i] == UpperChar(s[i])
  {
    if s == [] then [] else [UpperChar(s[0])] + ToUpper(s[1..])
  }

  /** The status texts the dashboard shows for the two statuses a server
      sends. */
  lemma StatusTexts()
    ensures ToUpper("up") == "UP" && ToUpper("down") == "DOWN"
  {
  }

  // The fixed text of the template literal, between its six substitutions.
  const ClassOpen := "\n            <div class=\"node "
  const DataNodeOpen := "\" data-node=\""
  const OnclickOpen := "\" onclick=\"window.statusChecker.showChart('"
  const ArgSep := "', '"
  const NameSpanOpen := "')\">\n                <div class=\"node-header\">\n                    <span class=\"status-indicator\"></span>\n                    <span class=\"node-name\">"
  const StatusDivOpen := "</span>\n                </div>\n                <div class=\"node-details\">\n                    <div class=\"detail-label\">Status</div>\n                    <div class=\"node-status\">"
  const ElementClose := "</div>\n                </div>\n            </div>\n        "

  /** `parts.join('')`, and also how a template literal is evaluated: its
      fixed text and its substitutions, concatenated in order. */
  function Join(parts: seq<string>): (r: string)
    ensures parts == [] ==> r == ""
    ensures parts != [] ==> parts[0] <= r
  {
    if parts == [] then "" else parts[0] + Join(parts[1..])
  }

  lemma {:induction false} JoinConcat(a: seq<string>, b: seq<string>)
    ensures Join(a + b) == Join(a) + Join(b)
  {
    if a == [] {
      assert a + b == b;
    } else {
      assert (a + b)[0] == a[0] && (a + b)[1..] == a[1..] + b;
      JoinConcat(a[1..], b);
    }
  }

  /** The template literal of `createNodeElement`: fixed text at the even
      positions, the six substitutions at the odd ones. */
  function TemplateParts(n: Node): seq<string>
  {
    [ClassOpen, n.status, DataNodeOpen, EscapeHtml(n.name), OnclickOpen, n.name, ArgSep,
     n.status, NameSpanOpen, EscapeHtml(n.name), StatusDivOpen, ToUpper(n.status), ElementClose]
  }

  /** `createNodeElement(node)`: the markup of one node. It opens the node
      div and ends with the text that closes it; where each field of the
      node lands in between is `NodeElementSlots`. */
  function CreateNodeElement(n: Node): (r: string)
    ensures ClassOpen <= r
    ensures |ElementClose| <= |r| && r[|r| - |ElementClose|..] == ElementClose
  {
    var parts := TemplateParts(n);
    JoinConcat(parts[..12], parts[12..]);
    assert parts[..12] + parts[12..] == parts;
    assert Join(parts[12..]) == ElementClose + Join([]);
    Join(parts)
  }

  /** `value`, delimited by `open` and `close`, occurs somewhere in `r`. */
  ghost predicate Encloses(r: string, open: string, value: string, close: string)
  {
    exists i :: 0 <= i <= |r| && open + value + close <= r[i..]
  }

  lemma EnclosesAt(r: string, pre: string, open: string, value: string, close: string, post: string)
    requires r == pre + (open + (value + (close + post)))
    ensures Encloses(r, open, value, close)
  {
    var w := open + value + close;
    assert r[|pre|..] == open + (value + (close + post));
    assert (open + (value + (close + post)))[..|w|] == w;
  }
  lemma JoinSplit(p: seq<string>, j: nat)
    requires j <= |p|
    ensures Join(p) == Join(p[..j]) + Join(p[j..])
  {
    assert p == p[..j] + p[j..];
    JoinConcat(p[..j], p[j..]);
  }
  lemma JoinStep(p: seq<string>, j: nat)
    requires j < |p|
    ensures Join(p[j..]) == p[j] + Join(p[j + 1..])
  {
    assert p[j..][0] == p[j] && p[j..][1..] == p[j + 1..];
  }

  /** Every part of a joined sequence appears in the result between its two
      neighbours. */
  lemma JoinEncloses(p: seq<string>, k: nat)
    requires 1 <= k < |p| - 1
    ensures Encloses(Join(p), p[k - 1], p[k], p[k + 1])
  {
    JoinSplit(p, k - 1);
    JoinStep(p, k - 1);
    JoinStep(p, k);
    JoinStep(p, k + 1);
    EnclosesAt(Join(p), Join(p[..k - 1]), p[k - 1], p[k], p[k + 1], Join(p[k + 2..]));
  }

  lemma TemplateSlot(n: Node, k: nat)
    requires k in {1, 3, 5, 7, 9, 11}
    ensures var p := TemplateParts(n); Encloses(CreateNodeElement(n), p[k - 1], p[k], p[k + 1])
  {
    JoinEncloses(TemplateParts(n), k);
  }

  lemma EscapedNameSlots(n: Node)
    ensures Encloses(CreateNodeElement(n), DataNodeOpen, EscapeHtml(n.name), OnclickOpen)
    ensures Encloses(CreateNodeElement(n), NameSpanOpen, EscapeHtml(n.name), StatusDivOpen)
  {
    TemplateSlot(n, 3);
    TemplateSlot(n, 9);
  }

  lemma OnclickSlots(n: Node)
    ensures Encloses(CreateNodeElement(n), OnclickOpen, n.name, ArgSep)
    ensures Encloses(CreateNodeElement(n), ArgSep, n.status, NameSpanOpen)
  {
    TemplateSlot(n, 5);
    TemplateSlot(n, 7);
  }

  lemma StatusSlots(n: Node)
    ensures Encloses(CreateNodeElement(n), ClassOpen, n.status, DataNodeOpen)
    ensures Encloses(CreateNodeElement(n), StatusDivOpen, ToUpper(n.status), ElementClose)
  {
    TemplateSlot(n, 1);
    TemplateSlot(n, 11);
  }

  /** Where each field of the node lands in its markup: the escaped name in
      the `data-node` attribute and in the name span, the upper-cased status
      in the status div, the raw status in the class attribute, and the raw,
      unescaped name and status in the `onclick` arguments. */
  lemma NodeElementSlots(n: Node)
    ensures var r := CreateNodeElement(n);
      ClassOpen <= r &&
      Encloses(r, ClassOpen, n.status, DataNodeOpen) &&
      Encloses(r, DataNodeOpen, EscapeHtml(n.name), OnclickOpen) &&
      Encloses(r, OnclickOpen, n.name, ArgSep) &&
      Encloses(r, ArgSep, n.status, NameSpanOpen) &&
      Encloses(r, NameSpanOpen, EscapeHtml(n.name), StatusDivOpen) &&
      Encloses(r, StatusDivOpen, ToUpper(n.status), ElementClose)
  {
    EscapedNameSlots(n);
    OnclickSlots(n);
    StatusSlots(n);
  }

  /** The name span of a node holds text that cannot open a tag or close an
      attribute, and that `DecodeEntities` reads back as exactly the node's
      name. */
  lemma NameRendersAsText(n: Node)
    ensures exists e :: Encloses(CreateNodeElement(n), NameSpanOpen, e, StatusDivOpen) &&
                        Inert(e) && DecodeEntities(e) == n.name
  {
    var e := EscapeHtml(n.name);
    EscapedNameSlots(n);
    EscapeHtmlInert(n.name);
    DecodeEscapeHtml(n.name);
  }

  /** `nodes.map(createNodeElement)`: one fragment per entry, in input order. */
  function Fragments(nodes: seq<Node>): (r: seq<string>)
    ensures |r| == |nodes|
    ensures forall i :: 0 <= i < |nodes| ==> r[i] == CreateNodeElement(nodes[i])
  {
    if nodes == [] then [] else [CreateNodeElement(nodes[0])] + Fragments(nodes[1..])
  }

  /** The whole markup `updateNodes` assigns for a snapshot: nothing for an
      empty one, and otherwise markup that starts with the first entry's. */
  function RenderNodes(nodes: seq<Node>): (r: string)
    ensures nodes == [] ==> r == ""
    ensures nodes != [] ==> CreateNodeElement(nodes[0]) <= r
  {
    Join(Fragments(nodes))
  }

  /** `map` works entry by entry. */
  lemma FragmentsConcat(a: seq<Node>, b: seq<Node>)
    ensures Fragments(a + b) == Fragments(a) + Fragments(b)
  {
    var l, r := Fragments(a + b), Fragments(a) + Fragments(b);
    assert |l| == |r|;
    forall i | 0 <= i < |l|
      ensures l[i] == r[i]
    {
      if i < |a| {
        assert (a + b)[i] == a[i];
      } else {
        assert (a + b)[i] == b[i - |a|];
      }
    }
  }

  /** Rendering works entry by entry: the markup of a snapshot is the
      markup of its first part followed by that of the rest. */
  lemma RenderNodesConcat(a: seq<Node>, b: seq<Node>)
    ensures RenderNodes(a + b) == RenderNodes(a) + RenderNodes(b)
  {
    FragmentsConcat(a, b);
    JoinConcat(Fragments(a), Fragments(b));
  }

  /** A snapshot of one entry renders as that entry's markup. */
  lemma RenderNodesSingle(n: Node)
    ensures RenderNodes([n]) == CreateNodeElement(n)
  {
    var f := Fragments([n]);
    assert f == [CreateNodeElement(n)];
    assert Join(f) == f[0] + Join(f[1..]);
    assert f[1..] == [];
  }

  /** The markup of entry `i` sits between the markup of the entries before
      it and that of the entries after it; an empty snapshot renders as no
      markup at all. */
  lemma RenderNodesAt(nodes: seq<Node>, i: nat)
    requires i < |nodes|
    ensures RenderNodes(nodes) == RenderNodes(nodes[..i]) + CreateNodeElement(nodes[i]) + RenderNodes(nodes[i + 1..])
    ensures RenderNodes([]) == ""
  {
    var pre, post := nodes[..i], nodes[i + 1..];
    assert nodes == pre + ([nodes[i]] + post);
    RenderNodesConcat(pre, [nodes[i]] + post);
    RenderNodesConcat([nodes[i]], post);
    RenderNodesSingle(nodes[i]);
  }
}
