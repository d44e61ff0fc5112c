/** The erased text of a Kotlin type: what the key of a constructor's signature is made of. */
module ErasedTypes {
  import opened CtorDefaults

  /** The parts of a type as it is written; `Arrow` is that of a function type. */
  datatype Part = Letter(c: char) | Blank(c: char) | Nullable | Arrow | Arguments(inner: seq<Part>)

  predicate Proper(p: Part) {
    match p
    case Letter(c) => c !in {'<', '>', '?', ' ', '\t', '\n', '\U{0B}', '\U{0C}', '\r'}
    case Blank(c) => c in {' ', '\t', '\n', '\U{0B}', '\U{0C}', '\r'}
    case Nullable => true
    case Arrow => true
    case Arguments(inner) => AllProper(inner)
  }

  predicate AllProper(ps: seq<Part>) {
    forall i :: 0 <= i < |ps| ==> Proper(ps[i])
  }

  /** No function type among the type arguments. */
  predicate NoArrowInside(ps: seq<Part>) {
    forall i :: 0 <= i < |ps| && ps[i].Arguments? ==> NoArrow(ps[i].inner)
  }

  predicate NoArrow(ps: seq<Part>) {
    forall i :: 0 <= i < |ps| ==> ps[i] != Arrow && (ps[i].Arguments? ==> NoArrow(ps[i].inner))
  }

  function Show(ps: seq<Part>): string
    decreases ps
  {
    if ps == [] then "" else ShowPart(ps[0]) + Show(ps[1..])
  }

  function ShowPart(p: Part): string
    decreases p
  {
    match p
    case Letter(c) => [c]
    case Blank(c) => [c]
    case Nullable => "?"
    case Arrow => "->"
    case Arguments(inner) => "<" + Show(inner) + ">"
  }

  /** Without arguments, nullability and blanks; of an arrow its dash is left. */
  function Plain(ps: seq<Part>): string {
    if ps == [] then "" else PlainPart(ps[0]) + Plain(ps[1..])
  }

  function PlainPart(p: Part): string {
    match p case Letter(c) => [c] case Arrow => "-" case _ => ""
  }

  // ----- the scan, part by part -----

  lemma FirstErased(c: char, more: string, depth: nat)
    ensures Erased([c] + more, depth) ==
      if c == '<' then Erased(more, depth + 1)
      else if c == '>' then Erased(more, if depth == 0 then 0 else depth - 1)
      else (if depth == 0 && c !in {'?', ' ', '\t', '\n', '\U{0B}', '\U{0C}', '\r'} then [c] else []) + Erased(more, depth)
  {
    assert ([c] + more)[1..] == more;
  }

  lemma PartErased(p: Part, more: string, depth: nat)
    requires Proper(p) && !p.Arguments? && p != Arrow
    ensures Erased(ShowPart(p) + more, depth) == (if depth == 0 then PlainPart(p) else "") + Erased(more, depth)
  {
    hide Erased;
    FirstErased(ShowPart(p)[0], more, depth);
  }

  lemma ArrowErased(more: string, depth: nat)
    ensures Erased("->" + more, depth) == (if depth == 0 then "-" else "") + Erased(more, if depth == 0 then 0 else depth - 1)
  {
    hide Erased;
    assert "->" + more == ['-'] + (['>'] + more);
    FirstErased('-', ['>'] + more, depth);
    FirstErased('>', more, depth);
  }

  lemma ShowUnfold(ps: seq<Part>, rest: string)
    ensures Show([]) + rest == rest
    ensures ps != [] ==> Show(ps) + rest == ShowPart(ps[0]) + (Show(ps[1..]) + rest)
  {
    hide ShowPart;
  }

  lemma PlainUnfold(ps: seq<Part>, rest: string)
    ensures Plain([]) + rest == rest
    ensures ps != [] ==> Plain(ps) + rest == PlainPart(ps[0]) + (Plain(ps[1..]) + rest)
  {
    hide PlainPart;
  }

  /** Text inside type arguments without a function type leaves nothing. */
  lemma {:induction false} InsideVanishes(ps: seq<Part>, rest: string, depth: nat)
    requires AllProper(ps) && NoArrow(ps) && depth > 0
    ensures Erased(Show(ps) + rest, depth) == Erased(rest, depth)
    decreases ps, 0
  {
    hide Erased, Show, ShowPart;
    ShowUnfold(ps, rest);
    if ps != [] {
      var p, more := ps[0], Show(ps[1..]) + rest;
      if p.Arguments? {
        ArgumentsVanish(p.inner, more, depth);
      } else {
        PartErased(p, more, depth);
        assert "" + Erased(more, depth) == Erased(more, depth);
      }
      InsideVanishes(ps[1..], rest, depth);
    }
  }

  lemma {:induction false} ArgumentsVanish(inner: seq<Part>, more: string, depth: nat)
    requires AllProper(inner) && NoArrow(inner)
    ensures Erased(ShowPart(Arguments(inner)) + more, depth) == Erased(more, depth)
    decreases inner, 1
  {
    hide Erased, Show;
    assert ShowPart(Arguments(inner)) + more == ['<'] + (Show(inner) + (['>'] + more));
    FirstErased('<', Show(inner) + (['>'] + more), depth);
    InsideVanishes(inner, ['>'] + more, depth + 1);
    FirstErased('>', more, depth + 1);
  }

  lemma {:induction false} ErasedShow(ps: seq<Part>, rest: string)
    requires AllProper(ps) && NoArrowInside(ps)
    ensures Erased(Show(ps) + rest, 0) == Plain(ps) + Erased(rest, 0)
    decreases ps
  {
    hide Erased, Show, ShowPart, Plain;
    ShowUnfold(ps, rest);
    PlainUnfold(ps, Erased(rest, 0));
    if ps != [] {
      var p, more := ps[0], Show(ps[1..]) + rest;
      ErasedShow(ps[1..], rest);
      if p.Arguments? {
        ArgumentsVanish(p.inner, more, 0);
        assert "" + Erased(more, 0) == Erased(more, 0);
      } else if p == Arrow {
        ArrowErased(more, 0);
        ArrowShows();
      } else {
        PartErased(p, more, 0);
      }
    }
  }

  lemma ArrowShows()
    ensures ShowPart(Arrow) == "->"
  {
  }

  /** Types with the same text outside their arguments, but for nullability and blanks, erase to
      the same text, where no function type is among the arguments; and only those do. */
  lemma ErasedIsPlain(ps: seq<Part>, qs: seq<Part>)
    requires AllProper(ps) && NoArrowInside(ps) && AllProper(qs) && NoArrowInside(qs)
    ensures Erased(Show(ps), 0) == Plain(ps)
    ensures Erased(Show(ps), 0) == Erased(Show(qs), 0) <==> Plain(ps) == Plain(qs)
  {
    ErasedShow(ps, "");
    ErasedShow(qs, "");
    assert Show(ps) + "" == Show(ps) && Show(qs) + "" == Show(qs);
  }

  /** So lists of such types get one key if they agree outside arguments, nullability and blanks. */
  lemma {:induction false} PlainDecidesKey(ts: seq<seq<Part>>, us: seq<seq<Part>>)
    requires |ts| == |us| && forall i :: 0 <= i < |ts| ==> Plain(ts[i]) == Plain(us[i])
    requires forall i :: 0 <= i < |ts| ==> AllProper(ts[i]) && NoArrowInside(ts[i]) && AllProper(us[i]) && NoArrowInside(us[i])
    ensures ErasureKey(ShowAll(ts)) == ErasureKey(ShowAll(us))
  {
    hide Erased, Plain, Show, AllProper, NoArrowInside;
    if ts != [] {
      ErasedIsPlain(ts[0], us[0]);
      PlainDecidesKey(ts[1..], us[1..]);
      assert ShowAll(ts)[1..] == ShowAll(ts[1..]) && ShowAll(us)[1..] == ShowAll(us[1..]);
    }
  }

  function ShowAll(ts: seq<seq<Part>>): (r: seq<string>)
    ensures |r| == |ts| && forall i :: 0 <= i < |ts| ==> r[i] == Show(ts[i])
  {
    seq(|ts|, i requires 0 <= i < |ts| => Show(ts[i]))
  }

  // ----- a function type among the arguments -----

  /** Letters, blanks and arrows alone. */
  predicate Flat(ps: seq<Part>) {
    forall i :: 0 <= i < |ps| ==> !ps[i].Arguments?
  }

  /** What stands behind the first arrow. */
  function BehindArrow(ps: seq<Part>): seq<Part> {
    if ps == [] then [] else if ps[0] == Arrow then ps[1..] else BehindArrow(ps[1..])
  }

  lemma {:induction false} FlatLeaks(ps: seq<Part>)
    requires AllProper(ps) && Flat(ps)
    ensures Erased(Show(ps) + ">", 1) == Plain(BehindArrow(ps))
    decreases ps
  {
    hide Erased, Show, ShowPart, Plain;
    ShowUnfold(ps, ">");
    CloseErased();
    if ps == [] {
      PlainUnfold(ps, "");
    } else {
      var p, more := ps[0], Show(ps[1..]) + ">";
      if p == Arrow {
        ArrowShows();
        ArrowErased(more, 1);
        ErasedShow(ps[1..], ">");
        assert "" + Erased(more, 0) == Erased(more, 0) && Plain(ps[1..]) + "" == Plain(ps[1..]);
      } else {
        FlatLeaks(ps[1..]);
        PartErased(p, more, 1);
        assert "" + Erased(more, 1) == Erased(more, 1);
      }
    }
  }

  lemma CloseErased()
    ensures Erased(">", 0) == "" && Erased(">", 1) == ""
  {
    assert ">"[1..] == "";
  }

  /** The arrow's `>` closes the arguments: what stands behind it in them stays in the key. So a
      type with one such argument list erases to its own name exactly if nothing does. */
  lemma ArrowLeaks(name: seq<Part>, inner: seq<Part>)
    requires AllProper(name) && Flat(name) && AllProper(inner) && Flat(inner)
    ensures Erased(Show(name + [Arguments(inner)]), 0) == Plain(name) + Plain(BehindArrow(inner))
    ensures Erased(Show(name + [Arguments(inner)]), 0) == Plain(name) <==> Plain(BehindArrow(inner)) == ""
  {
    hide Erased, Plain, BehindArrow;
    var tail := ['<'] + (Show(inner) + ">");
    ShowJoins(name, inner);
    ErasedShow(name, tail);
    FirstErased('<', Show(inner) + ">", 0);
    FlatLeaks(inner);
  }

  lemma {:induction false} ShowJoins(name: seq<Part>, inner: seq<Part>)
    ensures Show(name + [Arguments(inner)]) == Show(name) + (['<'] + (Show(inner) + ">"))
    decreases name
  {
    hide Show, ShowPart;
    var last := [Arguments(inner)];
    ShowUnfold(name, ['<'] + (Show(inner) + ">"));
    ShowUnfold(name + last, "");
    if name == [] {
      assert name + last == last && last[1..] == [];
      ArgumentsShow(inner);
    } else {
      ShowJoins(name[1..], inner);
      assert (name + last)[1..] == name[1..] + last;
      assert Show(name + last) + "" == Show(name + last) && Show(name[1..] + last) + "" == Show(name[1..] + last);
    }
  }

  lemma ArgumentsShow(inner: seq<Part>)
    ensures ShowPart(Arguments(inner)) == ['<'] + (Show(inner) + ">") && Show([]) == ""
  {
  }

  /** Two types that differ in a type argument alone, and get different keys: a clash of their
      constructors after erasure goes unseen. */
  lemma ArrowArgumentsDiffer()
    ensures ErasureKey(["L<(A)->B>"]) == "LB" && ErasureKey(["L<(A)->C>"]) == "LC"
  {
    hide Erased, ErasureKey;
    LeaksLetter('B');
    LeaksLetter('C');
    assert "L<(A)->" + ['B'] + ">" == "L<(A)->B>" && "L" + ['B'] == "LB";
    assert "L<(A)->" + ['C'] + ">" == "L<(A)->C>" && "L" + ['C'] == "LC";
  }

  lemma LeaksLetter(c: char)
    requires c in {'B', 'C'}
    ensures Erased("L<(A)->" + [c] + ">", 0) == "L" + [c] && ErasureKey(["L<(A)->" + [c] + ">"]) == "L" + [c]
  {
    var name, inner := [Letter('L')], [Letter('('), Letter('A'), Letter(')'), Arrow, Letter(c)];
    ArrowLeaks(name, inner);
    LeakParts(c, name, inner);
  }

  lemma LeakParts(c: char, name: seq<Part>, inner: seq<Part>)
    requires name == [Letter('L')] && inner == [Letter('('), Letter('A'), Letter(')'), Arrow, Letter(c)]
    ensures Plain(name) == "L" && Plain(BehindArrow(inner)) == [c]
    ensures Show(name + [Arguments(inner)]) == "L<(A)->" + [c] + ">"
  {
    var one, two, three := inner[1..], inner[2..], inner[3..];
    assert inner[1..][1..] == two && two[1..] == three && three[1..] == [Letter(c)] && [Letter(c)][1..] == [] && name[1..] == [];
    assert BehindArrow(three) == [Letter(c)] && BehindArrow(two) == [Letter(c)];
    assert Show([Letter(c)]) == [c] && Show(three) == "->" + [c] && Show(two) == ")->" + [c] && Show(one) == "A)->" + [c];
    assert Show(inner) == "(A)->" + [c];
    var all := name + [Arguments(inner)];
    assert all[1..] == [Arguments(inner)] && [Arguments(inner)][1..] == [];
    assert Show([Arguments(inner)]) == "<(A)->" + [c] + ">";
  }
}
