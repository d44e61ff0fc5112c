/** Mapping calls onto constructor parameters, lowering them, and planning the delegating
    overloads a class needs once it is Java. */
module CtorDefaults {
  import opened Options
  import opened DefaultText
  import opened NeutralLiterals
  import TextSearch

  // ----- arguments onto parameters -----

  datatype Arg<T> = Arg(name: Option<string>, value: T)

  datatype Resolved<T> = Resolved(slots: seq<Option<T>>, omitted: seq<nat>)

  /** The first parameter called `name`. */
  function Position(names: seq<string>, name: string): (r: Option<nat>)
    ensures r.Some? ==> r.value < |names| && names[r.value] == name
    ensures r.Some? ==> forall j :: 0 <= j < r.value ==> names[j] != name
    ensures r.None? ==> name !in names
  {
    if names == [] then None
    else if names[0] == name then Some(0)
    else match Position(names[1..], name) case None => None case Some(i) => Some(i + 1)
  }

  /** The number of positional arguments the call starts with. */
  function Positional<T>(args: seq<Arg<T>>): (k: nat)
    ensures k <= |args| && (forall i :: 0 <= i < k ==> args[i].name.None?) && (k < |args| ==> args[k].name.Some?)
  {
    if args != [] && args[0].name.None? then 1 + Positional(args[1..]) else 0
  }

  /** Which parameter argument `i` is for: by place before the first named one, by name after. */
  function Target<T>(names: seq<string>, args: seq<Arg<T>>, i: nat): (r: Option<nat>)
    requires i < |args|
    ensures r.Some? ==> r.value < |names|
  {
    if args[i].name.Some? then Position(names, args[i].name.value)
    else if i < Positional(args) && i < |names| then Some(i)
    else None
  }

  /** Every argument has a parameter of its own. */
  ghost predicate Accepted<T>(names: seq<string>, args: seq<Arg<T>>) {
    && (forall i :: 0 <= i < |args| ==> Target(names, args, i).Some?)
    && (forall i, j :: 0 <= i < j < |args| ==> Target(names, args, i) != Target(names, args, j))
  }

  /** `slots` holds exactly the first `n` arguments, each at its parameter. */
  ghost predicate Places<T>(names: seq<string>, args: seq<Arg<T>>, n: nat, slots: seq<Option<T>>)
    requires n <= |args|
  {
    && |slots| == |names|
    && (forall i :: 0 <= i < n ==> Target(names, args, i).Some? && slots[Target(names, args, i).value] == Some(args[i].value))
    && (forall p :: 0 <= p < |slots| && slots[p].Some? ==> exists i :: 0 <= i < n && Target(names, args, i) == Some(p))
    && (forall i, j :: 0 <= i < j < n ==> Target(names, args, i) != Target(names, args, j))
  }

  function Omitted<T>(slots: seq<Option<T>>): (r: seq<nat>)
    ensures forall p: nat :: p in r <==> p < |slots| && slots[p].None?
    ensures forall i, j :: 0 <= i < j < |r| ==> r[i] < r[j]
    ensures forall i :: 0 <= i < |r| ==> r[i] < |slots|
  {
    if slots == [] then []
    else
      var rest := Omitted(slots[..|slots| - 1]);
      if slots[|slots| - 1].None? then rest + [|slots| - 1] else rest
  }

  function FirstFree<T>(slots: seq<Option<T>>): (r: Option<nat>)
    ensures r.Some? ==> r.value < |slots| && slots[r.value].None? && forall j :: 0 <= j < r.value ==> slots[j].Some?
    ensures r.None? ==> forall j :: 0 <= j < |slots| ==> slots[j].Some?
    ensures r.None? ==> slots == [] || slots[|slots| - 1].Some?
  {
    if slots == [] then None
    else if slots[0].None? then Some(0)
    else match FirstFree(slots[1..]) case None => None case Some(i) => Some(i + 1)
  }

  /** Accepts exactly the calls whose arguments each have a parameter of their own, and puts
      each argument there. */
  method ResolveArgs<T>(names: seq<string>, args: seq<Arg<T>>) returns (r: Option<Resolved<T>>)
    ensures r.Some? <==> Accepted(names, args)
    ensures r.Some? ==> Places(names, args, |args|, r.value.slots) && r.value.omitted == Omitted(r.value.slots)
  {
    hide Places, Accepted, Target, Positional;
    var slots: seq<Option<T>> := seq(|names|, _ => None);
    var namedSeen := false;
    NothingPlaced(names, args, slots);
    for n := 0 to |args|
      invariant |slots| == |names| && Places(names, args, n, slots)
      invariant namedSeen <==> Positional(args) < n
      invariant !namedSeen ==> forall p :: 0 <= p < |slots| ==> (slots[p].Some? <==> p < n)
    {
      var arg := args[n];
      TargetOf(names, args, n);
      var index: Option<nat>;
      match arg.name {
        case Some(name) =>
          namedSeen := true;
          index := Position(names, name);
        case None =>
          index := if namedSeen then None else FirstFree(slots);
          assert !namedSeen ==> n < Positional(args);
          if !namedSeen {
            FirstFreeIs(slots, n);
          }
      }
      assert index == Target(names, args, n);
      if index.None? || slots[index.value].Some? {
        Misplaced(names, args, n, slots);
        return None;
      }
      PlaceOne(names, args, n, slots, slots[index.value := Some(arg.value)]);
      slots := slots[index.value := Some(arg.value)];
    }
    AllPlaced(names, args, slots);
    return Some(Resolved(slots, Omitted(slots)));
  }

  lemma FirstFreeIs<T>(slots: seq<Option<T>>, n: nat)
    requires forall p :: 0 <= p < |slots| ==> (slots[p].Some? <==> p < n)
    ensures FirstFree(slots) == if n < |slots| then Some(n) else None
  {
    var r := FirstFree(slots);
    assert n < |slots| ==> slots[n].None?;
  }

  lemma NothingPlaced<T>(names: seq<string>, args: seq<Arg<T>>, slots: seq<Option<T>>)
    requires |slots| == |names| && forall p :: 0 <= p < |slots| ==> slots[p].None?
    ensures Places(names, args, 0, slots)
  {
  }

  lemma AllPlaced<T>(names: seq<string>, args: seq<Arg<T>>, slots: seq<Option<T>>)
    requires Places(names, args, |args|, slots)
    ensures Accepted(names, args)
  {
  }

  lemma TargetOf<T>(names: seq<string>, args: seq<Arg<T>>, n: nat)
    requires n < |args|
    ensures args[n].name.Some? ==> Target(names, args, n) == Position(names, args[n].name.value) && Positional(args) <= n
    ensures args[n].name.None? ==> Target(names, args, n) == if n < Positional(args) && n < |names| then Some(n) else None
  {
  }

  /** An argument without a parameter, or with a taken one, refuses the call. */
  lemma Misplaced<T>(names: seq<string>, args: seq<Arg<T>>, n: nat, slots: seq<Option<T>>)
    requires n < |args| && Places(names, args, n, slots)
    requires Target(names, args, n).None? || slots[Target(names, args, n).value].Some?
    ensures !Accepted(names, args)
  {
    hide Target;
  }

  lemma PlaceOne<T>(names: seq<string>, args: seq<Arg<T>>, n: nat, before: seq<Option<T>>, after: seq<Option<T>>)
    requires n < |args| && Places(names, args, n, before)
    requires Target(names, args, n).Some? && before[Target(names, args, n).value].None?
    requires after == before[Target(names, args, n).value := Some(args[n].value)]
    ensures Places(names, args, n + 1, after)
  {
    hide Target;
    var at := Target(names, args, n).value;
    forall i | 0 <= i < n ensures Target(names, args, i) != Some(at) {
      assert before[Target(names, args, i).value].Some?;
    }
    forall p | 0 <= p < |after| && after[p].Some?
      ensures exists i :: 0 <= i < n + 1 && Target(names, args, i) == Some(p)
    {
      if p != at {
        var i :| 0 <= i < n && Target(names, args, i) == Some(p);
      }
    }
  }

  /** The slots of an accepted call are determined by the call. */
  lemma PlacesUnique<T>(names: seq<string>, args: seq<Arg<T>>, slots: seq<Option<T>>, other: seq<Option<T>>)
    requires Places(names, args, |args|, slots) && Places(names, args, |args|, other)
    ensures slots == other
  {
    forall p | 0 <= p < |slots| ensures slots[p] == other[p] {
      if slots[p].Some? { SamePlace(names, args, slots, other, p); }
      if other[p].Some? { SamePlace(names, args, other, slots, p); }
    }
  }

  lemma SamePlace<T>(names: seq<string>, args: seq<Arg<T>>, slots: seq<Option<T>>, other: seq<Option<T>>, p: nat)
    requires Places(names, args, |args|, slots) && Places(names, args, |args|, other)
    requires p < |slots| && slots[p].Some?
    ensures other[p] == slots[p]
  {
    var i :| 0 <= i < |args| && Target(names, args, i) == Some(p);
  }

  // ----- the call to write -----

  function DefaultAt(defaults: seq<Option<string>>, i: nat): Option<string> {
    if i < |defaults| then defaults[i] else None
  }

  /** Slot `i` is omitted and its default cannot be written into the call. */
  predicate LeavesGap<T>(slots: seq<Option<T>>, defaults: seq<Option<string>>, i: nat)
    requires i < |slots|
  {
    slots[i].None? && (DefaultAt(defaults, i).None? || !Neutral(DefaultAt(defaults, i).value))
  }

  /** Some omitted default cannot be written into the call. */
  predicate NeedsOverload<T>(slots: seq<Option<T>>, defaults: seq<Option<string>>) {
    exists i :: 0 <= i < |slots| && LeavesGap(slots, defaults, i)
  }

  /** The supplied values, in declared order. */
  function Supplied<T>(slots: seq<Option<T>>): seq<T> {
    if slots == [] then []
    else Supplied(slots[..|slots| - 1]) + if slots[|slots| - 1].Some? then [slots[|slots| - 1].value] else []
  }

  /** All omissions inlined, or none. */
  ghost predicate Lowered(slots: seq<Option<string>>, defaults: seq<Option<string>>, args: seq<string>, leftToOverload: seq<nat>) {
    if NeedsOverload(slots, defaults) then args == Supplied(slots) && leftToOverload == Omitted(slots)
    else leftToOverload == [] && Inlined(slots, defaults, args)
  }

  /** All omissions inlined, or none: then the whole pattern is left to the overload. */
  method LowerCallArgs(slots: seq<Option<string>>, defaults: seq<Option<string>>)
    returns (args: seq<string>, leftToOverload: seq<nat>)
    ensures Lowered(slots, defaults, args, leftToOverload)
  {
    hide NeedsOverload, Supplied, Omitted, Inlined;
    var needsOverload := AnyNotNeutral(slots, defaults);
    args, leftToOverload := [], [];
    NothingLowered(defaults);
    for i := 0 to |slots|
      invariant needsOverload ==> args == Supplied(slots[..i]) && leftToOverload == Omitted(slots[..i])
      invariant !needsOverload ==> leftToOverload == [] && Inlined(slots[..i], defaults, args)
    {
      OneMoreSlot(slots, defaults, args, i);
      match slots[i] {
        case Some(value) => args := args + [value];
        case None =>
          var default := DefaultAt(defaults, i);
          if default.Some? && !needsOverload {
            args := args + [default.value];
          } else {
            leftToOverload := leftToOverload + [i];
          }
      }
    }
    assert slots[..|slots|] == slots;
  }

  /** Every slot has an argument: the supplied one, or the neutral default. */
  ghost predicate Inlined(slots: seq<Option<string>>, defaults: seq<Option<string>>, args: seq<string>) {
    |args| == |slots| && forall i :: 0 <= i < |slots| ==>
      if slots[i].Some? then args[i] == slots[i].value
      else i < |defaults| && defaults[i] == Some(args[i]) && Neutral(args[i])
  }

  function Given<T>(args: seq<Arg<T>>): seq<T> {
    seq(|args|, i requires 0 <= i < |args| => args[i].value)
  }

  /** A call in a file that stays Kotlin: written out in declared order, without names and without
      the omitted ones, for the overload of that pattern. A call that names no argument and
      supplies every parameter is left alone, and so is one that is not accepted. */
  method RewriteCall(names: seq<string>, args: seq<Arg<string>>) returns (list: Option<seq<string>>)
    ensures list.None? <==> !Accepted(names, args) || (|args| == |names| && forall i :: 0 <= i < |args| ==> args[i].name.None?)
    ensures forall slots :: Places(names, args, |args|, slots) ==>
      Supplied(slots) == if list.Some? then list.value else Given(args)
  {
    hide Places, Accepted, Supplied, Omitted, Given;
    var resolved := ResolveArgs(names, args);
    if resolved.None? {
      forall slots ensures Places(names, args, |args|, slots) ==> Accepted(names, args) {
        if Places(names, args, |args|, slots) { AllPlaced(names, args, slots); }
      }
      return None;
    }
    var slots := resolved.value.slots;
    forall other | Places(names, args, |args|, other) ensures other == slots {
      PlacesUnique(names, args, slots, other);
    }
    assert (forall i :: 0 <= i < |args| ==> args[i].name.None?) ==> (Omitted(slots) == [] <==> |args| == |names|) by {
      if forall i :: 0 <= i < |args| ==> args[i].name.None? { UnnamedFull(names, args, slots); }
    }
    if resolved.value.omitted == [] && forall i | 0 <= i < |args| :: args[i].name.None? {
      AllPositional(names, args, slots);
      return None;
    }
    var ordered: seq<string> := [];
    assert slots[..0] == [] && Supplied<string>([]) == [] by { NothingLowered([]); }
    for i := 0 to |slots|
      invariant ordered == Supplied(slots[..i])
    {
      assert slots[..i + 1] == slots[..i] + [slots[i]];
      SlotAppended(slots[..i], slots[i]);
      if slots[i].Some? {
        ordered := ordered + [slots[i].value];
      }
    }
    assert slots[..|slots|] == slots;
    return Some(ordered);
  }

  /** Without names and omissions the values stand in declared order. */
  lemma AllPositional<T>(names: seq<string>, args: seq<Arg<T>>, slots: seq<Option<T>>)
    requires Places(names, args, |args|, slots) && Omitted(slots) == []
    requires forall i :: 0 <= i < |args| ==> args[i].name.None?
    ensures Supplied(slots) == Given(args)
  {
    hide Omitted, Supplied, Places, Target;
    NothingOmitted(slots);
    assert |slots| == |names| by { PlacesLength(names, args, slots); }
    forall p: nat | p < |slots| ensures p < |args| && slots[p] == Some(args[p].value) {
      var i := PlacedFrom(names, args, slots, p);
      UnnamedTarget(names, args, i);
    }
    if args != [] {
      ArgumentPlaced(names, args, slots, |args| - 1);
      UnnamedTarget(names, args, |args| - 1);
    }
    if slots != [] { assert slots[|slots| - 1].Some?; }
    SuppliedFull(slots);
    assert forall p: nat :: p < |slots| ==> slots[p].value == Given(args)[p];
  }

  /** A call without names supplies every parameter if it is as long as the parameter list. */
  lemma UnnamedFull<T>(names: seq<string>, args: seq<Arg<T>>, slots: seq<Option<T>>)
    requires Places(names, args, |args|, slots) && forall i :: 0 <= i < |args| ==> args[i].name.None?
    ensures Omitted(slots) == [] <==> |args| == |names|
  {
    hide Omitted, Places, Target;
    PlacesLength(names, args, slots);
    if args != [] {
      ArgumentPlaced(names, args, slots, |args| - 1);
      UnnamedTarget(names, args, |args| - 1);
    }
    if Omitted(slots) == [] {
      NothingOmitted(slots);
      if |args| < |slots| {
        var i := PlacedFrom(names, args, slots, |args|);
        UnnamedTarget(names, args, i);
      }
    } else {
      var p := Omitted(slots)[0];
      assert p in Omitted(slots);
      if p < |args| {
        UnnamedTarget(names, args, p);
        TargetFilled(names, args, slots, p);
      }
    }
  }

  lemma TargetFilled<T>(names: seq<string>, args: seq<Arg<T>>, slots: seq<Option<T>>, i: nat)
    requires Places(names, args, |args|, slots) && i < |args|
    ensures Target(names, args, i).Some? && Target(names, args, i).value < |slots| && slots[Target(names, args, i).value].Some?
  {
  }

  lemma PlacesLength<T>(names: seq<string>, args: seq<Arg<T>>, slots: seq<Option<T>>)
    requires Places(names, args, |args|, slots)
    ensures |slots| == |names|
  {
  }

  lemma ArgumentPlaced<T>(names: seq<string>, args: seq<Arg<T>>, slots: seq<Option<T>>, i: nat)
    requires Places(names, args, |args|, slots) && i < |args|
    ensures Target(names, args, i).Some?
  {
  }

  lemma PlacedFrom<T>(names: seq<string>, args: seq<Arg<T>>, slots: seq<Option<T>>, p: nat) returns (i: nat)
    requires Places(names, args, |args|, slots) && p < |slots| && slots[p].Some?
    ensures i < |args| && Target(names, args, i) == Some(p) && slots[p] == Some(args[i].value)
  {
    hide Target;
    i :| 0 <= i < |args| && Target(names, args, i) == Some(p);
  }

  lemma UnnamedTarget<T>(names: seq<string>, args: seq<Arg<T>>, i: nat)
    requires i < |args| && forall k :: 0 <= k < |args| ==> args[k].name.None?
    ensures Target(names, args, i) == if i < |names| then Some(i) else None
  {
    AllUnnamed(args);
  }

  lemma NothingOmitted<T>(slots: seq<Option<T>>)
    requires Omitted(slots) == []
    ensures forall p: nat :: p < |slots| ==> slots[p].Some?
  {
    forall p: nat | p < |slots| ensures slots[p].Some? {
      assert p !in Omitted(slots);
    }
  }

  lemma AllUnnamed<T>(args: seq<Arg<T>>)
    requires forall i :: 0 <= i < |args| ==> args[i].name.None?
    ensures Positional(args) == |args|
  {
  }

  lemma {:induction false} SuppliedFull<T>(slots: seq<Option<T>>)
    requires forall i :: 0 <= i < |slots| ==> slots[i].Some?
    ensures Supplied(slots) == seq(|slots|, i requires 0 <= i < |slots| => slots[i].value)
  {
    if slots != [] {
      SuppliedFull(slots[..|slots| - 1]);
    }
  }

  method AnyNotNeutral(slots: seq<Option<string>>, defaults: seq<Option<string>>) returns (needsOverload: bool)
    ensures needsOverload <==> NeedsOverload(slots, defaults)
  {
    hide Neutral;
    needsOverload := false;
    for i := 0 to |slots|
      invariant needsOverload <==> exists j :: 0 <= j < i && LeavesGap(slots, defaults, j)
    {
      if slots[i].None? {
        var neutral := false;
        if DefaultAt(defaults, i).Some? {
          neutral := IsNeutralLiteral(DefaultAt(defaults, i).value);
        }
        assert neutral <==> !LeavesGap(slots, defaults, i);
        if !neutral {
          needsOverload := true;
        }
      }
    }
  }

  lemma NothingLowered(defaults: seq<Option<string>>)
    ensures Supplied<string>([]) == [] && Omitted<string>([]) == [] && Inlined([], defaults, [])
  {
  }

  lemma OneMoreSlot(slots: seq<Option<string>>, defaults: seq<Option<string>>, args: seq<string>, i: nat)
    requires i < |slots|
    ensures Supplied(slots[..i + 1]) == Supplied(slots[..i]) + if slots[i].Some? then [slots[i].value] else []
    ensures Omitted(slots[..i + 1]) == Omitted(slots[..i]) + if slots[i].Some? then [] else [i]
    ensures Inlined(slots[..i], defaults, args) && slots[i].Some? ==> Inlined(slots[..i + 1], defaults, args + [slots[i].value])
    ensures Inlined(slots[..i], defaults, args) && slots[i].None? && !NeedsOverload(slots, defaults) ==>
      DefaultAt(defaults, i).Some? && Inlined(slots[..i + 1], defaults, args + [DefaultAt(defaults, i).value])
  {
    hide Neutral, Inlined, Supplied, Omitted;
    var init := slots[..i];
    assert slots[..i + 1] == init + [slots[i]];
    SlotAppended(init, slots[i]);
    if slots[i].Some? {
      InlinedAppended(init, defaults, args, slots[i], slots[i].value);
    } else if !NeedsOverload(slots, defaults) {
      assert !LeavesGap(slots, defaults, i);
      InlinedAppended(init, defaults, args, slots[i], DefaultAt(defaults, i).value);
    }
  }

  lemma SlotAppended(init: seq<Option<string>>, slot: Option<string>)
    ensures Supplied(init + [slot]) == Supplied(init) + if slot.Some? then [slot.value] else []
    ensures Omitted(init + [slot]) == Omitted(init) + if slot.Some? then [] else [|init|]
  {
    assert (init + [slot])[..|init|] == init;
  }

  lemma InlinedAppended(init: seq<Option<string>>, defaults: seq<Option<string>>, args: seq<string>, slot: Option<string>, arg: string)
    requires if slot.Some? then arg == slot.value else DefaultAt(defaults, |init|) == Some(arg) && Neutral(arg)
    ensures Inlined(init, defaults, args) ==> Inlined(init + [slot], defaults, args + [arg])
  {
    hide Neutral;
  }

  // ----- erased signatures -----

  /** One type without its arguments, nullability and blanks. */
  function Erased(ty: string, depth: nat): string
    decreases |ty|
  {
    if ty == [] then []
    else if ty[0] == '<' then Erased(ty[1..], depth + 1)
    else if ty[0] == '>' then Erased(ty[1..], if depth == 0 then 0 else depth - 1)
    else (if ty[0] != '?' && depth == 0 && !TextSearch.IsSpace(ty[0]) then [ty[0]] else []) + Erased(ty[1..], depth)
  }

  function ErasureKey(types: seq<string>): string {
    if types == [] then ""
    else Erased(types[0], 0) + if |types| > 1 then "," + ErasureKey(types[1..]) else ""
  }

  /** Equal keys at equal arity mean equal erased types, where no type erases to text with a
      comma in it. */
  lemma {:induction false} ErasureKeyInjective(ts: seq<string>, us: seq<string>)
    requires |ts| == |us| && ErasureKey(ts) == ErasureKey(us)
    requires forall i :: 0 <= i < |ts| ==> ',' !in Erased(ts[i], 0) && ',' !in Erased(us[i], 0)
    ensures forall i :: 0 <= i < |ts| ==> Erased(ts[i], 0) == Erased(us[i], 0)
  {
    if |ts| > 1 {
      var t, u := Erased(ts[0], 0), Erased(us[0], 0);
      var key := ErasureKey(ts);
      assert key == t + ("," + ErasureKey(ts[1..])) && key == u + ("," + ErasureKey(us[1..]));
      assert key[|t|] == ',' && key[|u|] == ',';
      assert forall i :: 0 <= i < |u| ==> u[i] == key[i] && u[i] != ',';
      assert forall i :: 0 <= i < |t| ==> t[i] == key[i] && t[i] != ',';
      assert ErasureKey(ts[1..]) == key[|t| + 1..] == ErasureKey(us[1..]);
      ErasureKeyInjective(ts[1..], us[1..]);
      forall i | 0 <= i < |ts| ensures Erased(ts[i], 0) == Erased(us[i], 0) {
        if i > 0 { assert ts[i] == ts[1..][i - 1] && us[i] == us[1..][i - 1]; }
        else { assert key[..|t|] == t && key[..|u|] == u; }
      }
    } else if |ts| == 1 {
      assert ErasureKey(ts) == Erased(ts[0], 0) && ErasureKey(us) == Erased(us[0], 0);
    }
  }

  // ----- the plan -----

  /** What a constructor says, with the omission patterns its callers use and the ones the
      emitter writes anyway. */
  datatype Shape = Shape(
    names: seq<string>,
    defaults: seq<Option<string>>,
    types: seq<string>,
    patterns: seq<seq<nat>>,
    ladder: seq<seq<nat>>,
    hasSecondary: bool
  )

  datatype Block = SecondaryConstructor | NoDefault(index: nat) | Unsupplied(index: nat) | Collision

  datatype Plan = Overloads(patterns: seq<seq<nat>>) | Blocked(reason: Block)

  /** The patterns the ladder does not cover already. */
  function Needed(patterns: seq<seq<nat>>, ladder: seq<seq<nat>>): (r: seq<seq<nat>>)
    ensures forall p :: p in r <==> p in patterns && p !in ladder
  {
    if patterns == [] then []
    else (if patterns[0] in ladder then [] else [patterns[0]]) + Needed(patterns[1..], ladder)
  }

  /** A name in `seen` that stands for a parameter outside the supplied ones. */
  predicate Missing(names: seq<string>, omitted: seq<nat>, seen: seq<string>) {
    exists x :: x in seen && var at := Position(names, x); at.Some? && at.value in omitted
  }

  predicate UnsuppliedReference(default: string, names: seq<string>, omitted: seq<nat>) {
    Missing(names, omitted, Scan(default, None))
  }

  /** Why one omission of a pattern cannot be written into an overload. */
  function Fault(shape: Shape, pattern: seq<nat>, index: nat): Option<Block> {
    var default := DefaultAt(shape.defaults, index);
    if default.None? then Some(NoDefault(index))
    else if UnsuppliedReference(default.value, shape.names, pattern) then Some(Unsupplied(index))
    else None
  }

  /** The types of the parameters an overload still takes. */
  function TypesLeft(shape: Shape, pattern: seq<nat>, upTo: nat): seq<string> {
    if upTo == 0 then []
    else TypesLeft(shape, pattern, upTo - 1)
         + if upTo - 1 in pattern || upTo - 1 >= |shape.types| then [] else [shape.types[upTo - 1]]
  }

  function Signature(shape: Shape, pattern: seq<nat>): (nat, string) {
    var types := TypesLeft(shape, pattern, |shape.names|);
    (|types|, ErasureKey(types))
  }

  /** Every pattern can be written and no two share a signature. */
  ghost predicate Writable(shape: Shape, needed: seq<seq<nat>>) {
    && !shape.hasSecondary
    && (forall p, i :: p in needed && i in p ==> Fault(shape, p, i).None?)
    && Apart(shape, needed + shape.ladder)
  }

  ghost predicate Apart(shape: Shape, patterns: seq<seq<nat>>) {
    forall i, j :: 0 <= i < j < |patterns| ==> Signature(shape, patterns[i]) != Signature(shape, patterns[j])
  }

  /** The plan is the needed overloads, or blocked; blocked exactly when one is needed and
      they cannot all be written side by side. */
  method PlanCtorDefaults(shape: Shape) returns (plan: Plan)
    ensures plan.Overloads? <==> Needed(shape.patterns, shape.ladder) == [] || Writable(shape, Needed(shape.patterns, shape.ladder))
    ensures plan.Overloads? ==> plan.patterns == Needed(shape.patterns, shape.ladder)
  {
    hide Needed, Fault, Signature;
    var needed := Needed(shape.patterns, shape.ladder);
    if needed == [] {
      return Overloads([]);
    }
    if shape.hasSecondary {
      return Blocked(SecondaryConstructor);
    }
    for i := 0 to |needed|
      invariant forall p, k :: p in needed[..i] && k in p ==> Fault(shape, p, k).None?
    {
      var fault := FirstFault(shape, needed[i]);
      if fault.Some? {
        return Blocked(fault.value);
      }
    }
    assert needed[..|needed|] == needed;
    var apart := AllApart(shape, needed + shape.ladder);
    return if apart then Overloads(needed) else Blocked(Collision);
  }

  method FirstFault(shape: Shape, pattern: seq<nat>) returns (fault: Option<Block>)
    ensures fault.None? <==> forall k :: k in pattern ==> Fault(shape, pattern, k).None?
  {
    hide Fault;
    for j := 0 to |pattern|
      invariant forall k :: k in pattern[..j] ==> Fault(shape, pattern, k).None?
    {
      fault := Fault(shape, pattern, pattern[j]);
      if fault.Some? {
        assert pattern[j] in pattern;
        return;
      }
    }
    assert pattern[..|pattern|] == pattern;
    return None;
  }

  method AllApart(shape: Shape, patterns: seq<seq<nat>>) returns (apart: bool)
    ensures apart <==> Apart(shape, patterns)
  {
    hide Signature;
    var seen: seq<(nat, string)> := [];
    for i := 0 to |patterns|
      invariant |seen| == i && forall j :: 0 <= j < i ==> seen[j] == Signature(shape, patterns[j])
      invariant forall j, k :: 0 <= j < k < i ==> Signature(shape, patterns[j]) != Signature(shape, patterns[k])
    {
      var signature := Signature(shape, patterns[i]);
      if signature in seen {
        return false;
      }
      seen := seen + [signature];
    }
    return true;
  }

  // ----- the ladders -----

  /** Omit the last one, the last two, ... of `indices` (given from right to left). */
  function Cumulative(indices: seq<nat>): seq<seq<nat>> {
    if indices == [] then []
    else Cumulative(indices[..|indices| - 1]) + [Reversed(indices)]
  }

  /** The indices in ascending order (they come in descending). */
  function Reversed(indices: seq<nat>): seq<nat> {
    if indices == [] then [] else [indices[|indices| - 1]] + Reversed(indices[..|indices| - 1])
  }

  /** Indices below `n` with a default, from right to left. */
  function DefaultedDown(defaults: seq<Option<string>>, n: nat): seq<nat>
    requires n <= |defaults|
  {
    if n == 0 then []
    else (if defaults[n - 1].Some? then [n - 1] else []) + DefaultedDown(defaults, n - 1)
  }

  /** The run of defaults at the end, from right to left. */
  function TrailingDown(defaults: seq<Option<string>>, n: nat): seq<nat>
    requires n <= |defaults|
  {
    if n == 0 || defaults[n - 1].None? then [] else [n - 1] + TrailingDown(defaults, n - 1)
  }

  function TrailingPatterns(defaults: seq<Option<string>>): seq<seq<nat>> {
    Cumulative(TrailingDown(defaults, |defaults|))
  }

  function JvmOverloadPatterns(defaults: seq<Option<string>>): seq<seq<nat>> {
    Cumulative(DefaultedDown(defaults, |defaults|))
  }
}
