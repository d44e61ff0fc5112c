/** Java source to syntax nodes and back: nodes keep every byte, tokens with the trivia before
    them, and rendering gives the text back. */
module JavaLossless {

  /** A parse tree: byte ranges, the grammar's kinds, and children in order. */
  datatype Cst = Cst(start: nat, end: nat, kind: string, children: seq<Cst>)

  /** Trivia tokens carry text the grammar does not name; a leaf of a named category is wrapped
      in a node of its own. */
  datatype Element = Token(kind: string, text: string, leading: string) | Nested(node: Syntax)

  datatype Syntax = Syntax(kind: string, children: seq<Element>, trailing: string)

  /** Where child `i` of `ns` may start. */
  function Before(ns: seq<Cst>, byte: nat, i: nat): nat
    requires i <= |ns|
  {
    if i == 0 then byte else ns[i - 1].end
  }

  /** Children lie inside the node, in order. */
  ghost predicate Laid(n: Cst, size: nat) {
    && n.start <= n.end <= size && Before(n.children, n.start, |n.children|) <= n.end
    && forall i :: 0 <= i < |n.children| ==> Before(n.children, n.start, i) <= n.children[i].start && Laid(n.children[i], size)
  }

  // ----- rendering -----

  function Rendered(n: Syntax): string
    decreases n, 0
  {
    RenderedAll(n.children) + n.trailing
  }

  function RenderedAll(es: seq<Element>): string
    decreases es, 0
  {
    if es == [] then ""
    else
      var rest := RenderedAll(es[..|es| - 1]);
      match es[|es| - 1]
      case Token(_, text, leading) => rest + (leading + text)
      case Nested(node) => assert es decreases to es[|es| - 1]; rest + Rendered(node)
  }

  method RenderNode(n: Syntax, before: string) returns (out: string)
    ensures out == before + Rendered(n)
    decreases n
  {
    out := before;
    for i := 0 to |n.children|
      invariant out == before + RenderedAll(n.children[..i])
    {
      assert n.children[..i + 1][..i] == n.children[..i];
      match n.children[i]
      case Token(_, text, leading) => out := out + leading + text;
      case Nested(node) =>
        assert n.children decreases to n.children[i];
        out := RenderNode(node, out);
    }
    assert n.children[..|n.children|] == n.children;
    out := out + n.trailing;
  }

  function RenderedElement(e: Element): string {
    match e
    case Token(_, text, leading) => leading + text
    case Nested(node) => Rendered(node)
  }

  // ----- building -----

  /** The element is the child: a leaf's text is its own range, behind the trivia before it;
      a nested node starts with its trivia, if there is any. */
  ghost predicate Mirrors(e: Element, n: Cst, source: string, byte: nat, wraps: string -> bool)
    requires byte <= n.start && Laid(n, |source|)
    decreases n, 1
  {
    var trivia := source[byte..n.start];
    if n.children == [] then
      var token := Token(n.kind, source[n.start..n.end], trivia);
      if wraps(n.kind) then e.Nested? && e.node.kind == n.kind && e.node.children == [token] && e.node.trailing == "" else e == token
    else
      && e.Nested? && e.node.kind == n.kind
      && var skip := if trivia == "" then 0 else 1;
         && |e.node.children| == |n.children| + skip
         && (trivia != "" ==> e.node.children[0] == Token("trivia", "", trivia))
         && MirrorsAll(e.node.children[skip..], n, source, wraps)
         && e.node.trailing == source[Before(n.children, n.start, |n.children|)..n.end]
  }

  ghost predicate MirrorsAll(es: seq<Element>, n: Cst, source: string, wraps: string -> bool)
    requires Laid(n, |source|)
    decreases n, 0, 1
  {
    |es| == |n.children| && forall i :: 0 <= i < |es| ==> MirrorsAt(es[i], n, source, wraps, i)
  }

  ghost predicate MirrorsAt(e: Element, n: Cst, source: string, wraps: string -> bool, i: nat)
    requires Laid(n, |source|) && i < |n.children|
    decreases n, 0, 0
  {
    Laid(n.children[i], |source|) && Mirrors(e, n.children[i], source, Before(n.children, n.start, i), wraps)
  }

  function Leaf(n: Cst, source: string, byte: nat, wraps: string -> bool): Element
    requires byte <= n.start <= n.end <= |source|
  {
    var token := Token(n.kind, source[n.start..n.end], source[byte..n.start]);
    if wraps(n.kind) then Nested(Syntax(n.kind, [token], "")) else token
  }

  /** The node for a parse tree: an element for every child, and the bytes behind the last. */
  method BuildNode(n: Cst, source: string, wraps: string -> bool) returns (s: Syntax)
    requires Laid(n, |source|)
    ensures s.kind == n.kind && MirrorsAll(s.children, n, source, wraps)
    ensures s.trailing == source[Before(n.children, n.start, |n.children|)..n.end]
    decreases n
  {
    hide Mirrors, Leaf, Laid;
    LaidEnds(n, |source|);
    var children: seq<Element> := [];
    for i := 0 to |n.children|
      invariant |children| == i
      invariant forall j :: 0 <= j < i ==> MirrorsAt(children[j], n, source, wraps, j)
    {
      var child, byte := n.children[i], Before(n.children, n.start, i);
      ChildLaid(n, |source|, i);
      var trivia := source[byte..child.start];
      if child.children == [] {
        LeafMirrors(child, source, byte, wraps);
        children := children + [Leaf(child, source, byte, wraps)];
      } else {
        var nested := BuildNode(child, source, wraps);
        NestedMirrors(nested, child, source, byte, wraps);
        if trivia != "" {
          nested := nested.(children := [Token("trivia", "", trivia)] + nested.children);
        }
        children := children + [Nested(nested)];
      }
    }
    s := Syntax(n.kind, children, source[Before(n.children, n.start, |n.children|)..n.end]);
  }

  lemma {:induction false} LeafMirrors(n: Cst, source: string, byte: nat, wraps: string -> bool)
    requires byte <= n.start && Laid(n, |source|) && n.children == []
    ensures Mirrors(Leaf(n, source, byte, wraps), n, source, byte, wraps)
  {
  }

  lemma {:induction false} NestedMirrors(s: Syntax, n: Cst, source: string, byte: nat, wraps: string -> bool)
    requires byte <= n.start && Laid(n, |source|) && n.children != []
    requires s.kind == n.kind && MirrorsAll(s.children, n, source, wraps)
    requires s.trailing == source[Before(n.children, n.start, |n.children|)..n.end]
    ensures var trivia := source[byte..n.start];
      Mirrors(Nested(if trivia == "" then s else s.(children := [Token("trivia", "", trivia)] + s.children)), n, source, byte, wraps)
  {
    hide MirrorsAll;
    var trivia := source[byte..n.start];
    assert s.children[0..] == s.children && ([Token("trivia", "", trivia)] + s.children)[1..] == s.children;
    assert |s.children| == |n.children| by { MirrorsLength(s.children, n, source, wraps); }
  }

  lemma {:induction false} MirrorsLength(es: seq<Element>, n: Cst, source: string, wraps: string -> bool)
    requires Laid(n, |source|) && MirrorsAll(es, n, source, wraps)
    ensures |es| == |n.children|
  {
  }

  // ----- and back -----

  lemma RenderedAppend(es: seq<Element>, e: Element)
    ensures RenderedAll(es + [e]) == RenderedAll(es) + RenderedElement(e)
  {
    assert (es + [e])[..|es|] == es;
  }

  lemma {:induction false} RenderedPrepend(e: Element, es: seq<Element>)
    ensures RenderedAll([e] + es) == RenderedElement(e) + RenderedAll(es)
    decreases |es|
  {
    hide RenderedAll, RenderedElement;
    if es == [] {
      assert [e] + es == [] + [e];
      RenderedAppend([], e);
      RenderedNone();
    } else {
      var init, last := es[..|es| - 1], es[|es| - 1];
      RenderedPrepend(e, init);
      assert [e] + es == ([e] + init) + [last] && es == init + [last];
      RenderedAppend([e] + init, last);
      RenderedAppend(init, last);
    }
  }

  /** The children a nested element has behind its trivia. */
  lemma {:induction false} MirrorParts(e: Element, n: Cst, source: string, byte: nat, wraps: string -> bool) returns (own: seq<Element>)
    requires byte <= n.start && Laid(n, |source|) && n.children != [] && Mirrors(e, n, source, byte, wraps)
    ensures e.Nested? && MirrorsAll(own, n, source, wraps) && |own| == |n.children|
    ensures RenderedAll(e.node.children) == source[byte..n.start] + RenderedAll(own)
    ensures e.node.trailing == source[Before(n.children, n.start, |n.children|)..n.end]
  {
    hide MirrorsAll, RenderedAll;
    var trivia := source[byte..n.start];
    if trivia == "" {
      own := e.node.children[0..];
      assert own == e.node.children;
    } else {
      own := e.node.children[1..];
      assert e.node.children == [e.node.children[0]] + own;
      RenderedPrepend(e.node.children[0], own);
      assert RenderedElement(e.node.children[0]) == trivia;
    }
    MirrorsLength(own, n, source, wraps);
  }

  /** An element renders to its child's bytes and the trivia before them. */
  lemma {:induction false} ElementBack(e: Element, n: Cst, source: string, byte: nat, wraps: string -> bool)
    requires byte <= n.start && Laid(n, |source|) && Mirrors(e, n, source, byte, wraps)
    ensures RenderedElement(e) == source[byte..n.end]
    decreases n, 1
  {
    BytesJoin(source, byte, n.start, n.end);
    if n.children == [] {
      LeafBack(e, n, source, byte, wraps);
    } else {
      hide Mirrors, MirrorsAll, RenderedAll, Laid;
      var own := MirrorParts(e, n, source, byte, wraps);
      ChildrenBack(own, n, source, wraps, |n.children|);
      assert own[..|n.children|] == own;
      LaidEnds(n, |source|);
      BytesJoin(source, n.start, Before(n.children, n.start, |n.children|), n.end);
      NestedRenders(e, source[byte..n.start], RenderedAll(own), e.node.trailing);
    }
  }

  lemma {:induction false} NestedRenders(e: Element, trivia: string, own: string, trailing: string)
    requires e.Nested? && RenderedAll(e.node.children) == trivia + own && e.node.trailing == trailing
    ensures RenderedElement(e) == trivia + (own + trailing)
  {
    hide RenderedAll;
  }

  lemma {:induction false} LaidEnds(n: Cst, size: nat)
    requires Laid(n, size)
    ensures n.start <= n.end <= size && Before(n.children, n.start, |n.children|) <= n.end
  {
  }

  lemma {:induction false} LeafBack(e: Element, n: Cst, source: string, byte: nat, wraps: string -> bool)
    requires byte <= n.start && Laid(n, |source|) && n.children == [] && Mirrors(e, n, source, byte, wraps)
    ensures RenderedElement(e) == source[byte..n.start] + source[n.start..n.end]
  {
    var token := Token(n.kind, source[n.start..n.end], source[byte..n.start]);
    hide Laid;
    TokenRenders(token);
  }

  lemma {:induction false} TokenRenders(token: Element)
    requires token.Token?
    ensures RenderedAll([token]) == token.leading + token.text
  {
    RenderedAppend([], token);
    assert [] + [token] == [token];
  }

  lemma BytesJoin(source: string, a: nat, b: nat, c: nat)
    requires a <= b <= c <= |source|
    ensures source[a..b] + source[b..c] == source[a..c]
  {
  }

  lemma {:induction false} BeforeAscends(n: Cst, size: nat, i: nat)
    requires Laid(n, size) && i <= |n.children|
    ensures n.start <= Before(n.children, n.start, i) <= size
  {
    hide Laid;
    LaidEnds(n, size);
    if i > 0 {
      BeforeAscends(n, size, i - 1);
      ChildLaid(n, size, i - 1);
    }
  }

  lemma {:induction false} ChildLaid(n: Cst, size: nat, i: nat)
    requires Laid(n, size) && i < |n.children|
    ensures Before(n.children, n.start, i) <= n.children[i].start <= n.children[i].end <= size && Laid(n.children[i], size)
  {
    assert Laid(n.children[i], size);
  }

  lemma {:induction false} ChildMirrors(es: seq<Element>, n: Cst, source: string, wraps: string -> bool, i: nat)
    requires Laid(n, |source|) && MirrorsAll(es, n, source, wraps) && i < |es| && i < |n.children|
    ensures Before(n.children, n.start, i) <= n.children[i].start <= n.children[i].end <= |source| && Laid(n.children[i], |source|)
    ensures Mirrors(es[i], n.children[i], source, Before(n.children, n.start, i), wraps)
  {
    ChildLaid(n, |source|, i);
    hide Mirrors, Laid, Before;
    assert MirrorsAt(es[i], n, source, wraps, i);
  }

  lemma {:induction false} ChildrenBack(es: seq<Element>, n: Cst, source: string, wraps: string -> bool, i: nat)
    requires Laid(n, |source|) && MirrorsAll(es, n, source, wraps) && i <= |es|
    ensures n.start <= Before(n.children, n.start, i) <= |source|
    ensures RenderedAll(es[..i]) == source[n.start..Before(n.children, n.start, i)]
    decreases n, 0, i
  {
    hide Mirrors, MirrorsAll, MirrorsAt, Laid, RenderedAll, RenderedElement;
    MirrorsLength(es, n, source, wraps);
    BeforeAscends(n, |source|, i);
    if i > 0 {
      ChildrenBack(es, n, source, wraps, i - 1);
      var child := n.children[i - 1];
      ChildMirrors(es, n, source, wraps, i - 1);
      ElementBack(es[i - 1], child, source, Before(n.children, n.start, i - 1), wraps);
      assert es[..i] == es[..i - 1] + [es[i - 1]];
      RenderedAppend(es[..i - 1], es[i - 1]);
      BytesJoin(source, n.start, Before(n.children, n.start, i - 1), child.end);
    } else {
      assert RenderedAll(es[..0]) == "" by { RenderedNone(); }
    }
  }

  lemma RenderedNone()
    ensures RenderedAll([]) == ""
  {
  }

  /** Main result: what was built from a tree renders to the tree's bytes, all of them. */
  lemma BuiltRendersBack(s: Syntax, n: Cst, source: string, wraps: string -> bool)
    requires Laid(n, |source|) && MirrorsAll(s.children, n, source, wraps)
    requires s.trailing == source[Before(n.children, n.start, |n.children|)..n.end]
    ensures Rendered(s) == source[n.start..n.end]
  {
    ChildrenBack(s.children, n, source, wraps, |n.children|);
    assert s.children[..|n.children|] == s.children;
    BytesJoin(source, n.start, Before(n.children, n.start, |n.children|), n.end);
  }
}
