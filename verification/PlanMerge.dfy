/** Aggregating the decisions of planning rounds into one plan anchored in the original text. */
module PlanMerge {
  import opened Options

  type Symbol = string

  /** Who owns a declaration and why. */
  datatype Ownership = Ownership(finalOwner: string, candidate: string, prepared: string, reasons: seq<string>)

  /** A decision about a declaration at a place in some snapshot. */
  datatype Decision = Decision(symbol: Symbol, location: string, ownership: Ownership, detail: string)

  /** One round's decisions, and where declarations that are new to it came from. */
  datatype Incoming = Incoming(decisions: seq<Decision>, origins: seq<(Symbol, Symbol)>)

  function IndexOf(decisions: seq<Decision>, symbol: Symbol): (r: Option<nat>)
    ensures r.Some? ==> r.value < |decisions| && decisions[r.value].symbol == symbol && forall j :: 0 <= j < r.value ==> decisions[j].symbol != symbol
    ensures r.None? ==> forall j :: 0 <= j < |decisions| ==> decisions[j].symbol != symbol
  {
    if decisions == [] then None
    else if decisions[0].symbol == symbol then Some(0)
    else match IndexOf(decisions[1..], symbol) case None => None case Some(i) => Some(i + 1)
  }

  /** The origins recorded for a generated symbol, or the one the parser recovery infers. */
  function Origins(decisions: seq<Decision>, incoming: Incoming, d: Decision, recover: (seq<Symbol>, Decision) -> Option<Symbol>): set<Symbol> {
    var mapped := set m | m in incoming.origins && m.0 == d.symbol :: m.1;
    if mapped != {} then mapped
    else match recover(Symbols(decisions), d) case Some(origin) => {origin} case None => {}
  }

  function Symbols(decisions: seq<Decision>): seq<Symbol> {
    seq(|decisions|, i requires 0 <= i < |decisions| => decisions[i].symbol)
  }

  /** Which entry a decision is about, and whether it names that entry itself. */
  datatype Target = Same(at: nat) | Mapped(at: nat) | Refused

  function TargetOf(decisions: seq<Decision>, incoming: Incoming, d: Decision, recover: (seq<Symbol>, Decision) -> Option<Symbol>): (r: Target)
    ensures !r.Refused? ==> r.at < |decisions|
    ensures r.Same? ==> decisions[r.at].symbol == d.symbol
  {
    match IndexOf(decisions, d.symbol)
    case Some(i) => Same(i)
    case None =>
      var origins := Origins(decisions, incoming, d, recover);
      if |origins| != 1 then Refused
      else
        var origin := Only(origins);
        match IndexOf(decisions, origin) case Some(i) => Mapped(i) case None => Refused
  }

  function Only(origins: set<Symbol>): (r: Symbol)
    requires |origins| == 1
    ensures origins == {r}
  {
    OneElement(origins);
    var r :| r in origins;
    r
  }

  lemma OneElement(origins: set<Symbol>)
    requires |origins| == 1
    ensures exists r :: r in origins && origins == {r}
    ensures forall r, s :: r in origins && s in origins ==> r == s
  {
    var r :| r in origins;
    assert |origins - {r}| == 0;
    assert origins == {r};
  }

  /** A named entry takes the whole decision but keeps its place; a mapped one takes the
      ownership alone. */
  function Refresh(entry: Decision, d: Decision, target: Target): Decision {
    if target.Same? then d.(location := entry.location) else entry.(ownership := d.ownership)
  }

  function MergeOne(decisions: seq<Decision>, incoming: Incoming, d: Decision, recover: (seq<Symbol>, Decision) -> Option<Symbol>): Option<seq<Decision>> {
    var target := TargetOf(decisions, incoming, d, recover);
    if target.Refused? then None else Some(decisions[target.at := Refresh(decisions[target.at], d, target)])
  }

  function MergeFrom(decisions: seq<Decision>, incoming: Incoming, k: nat, recover: (seq<Symbol>, Decision) -> Option<Symbol>): Option<seq<Decision>>
    requires k <= |incoming.decisions|
    decreases |incoming.decisions| - k
  {
    if k == |incoming.decisions| then Some(decisions)
    else match MergeOne(decisions, incoming, incoming.decisions[k], recover)
      case None => None
      case Some(next) => MergeFrom(next, incoming, k + 1, recover)
  }

  /** The aggregate plans by file. The first plan of a file is taken as it is. */
  class Aggregate {
    var plans: map<string, seq<Decision>>

    constructor ()
      ensures plans == map[]
    {
      plans := map[];
    }

    method Merge(file: string, incoming: Incoming, recover: (seq<Symbol>, Decision) -> Option<Symbol>) returns (ok: bool)
      modifies this
      ensures file !in old(plans) ==> ok && plans == old(plans)[file := incoming.decisions]
      ensures file in old(plans) ==> (ok <==> MergeFrom(old(plans)[file], incoming, 0, recover).Some?)
      ensures file in old(plans) && ok ==> plans == old(plans)[file := MergeFrom(old(plans)[file], incoming, 0, recover).value]
    {
      if file !in plans {
        plans := plans[file := incoming.decisions];
        return true;
      }
      for k := 0 to |incoming.decisions|
        invariant file in plans && plans == old(plans)[file := plans[file]]
        invariant MergeFrom(plans[file], incoming, k, recover) == MergeFrom(old(plans)[file], incoming, 0, recover)
      {
        hide TargetOf;
        var d, decisions := incoming.decisions[k], plans[file];
        var target := TargetOf(decisions, incoming, d, recover);
        if target.Refused? {
          return false;
        }
        plans := plans[file := decisions[target.at := Refresh(decisions[target.at], d, target)]];
      }
      return true;
    }
  }

  // ----- what any number of merges keeps -----

  /** The same declarations at the same places. */
  ghost predicate Anchored(a: seq<Decision>, b: seq<Decision>) {
    |a| == |b| && forall i :: 0 <= i < |a| ==> a[i].symbol == b[i].symbol && a[i].location == b[i].location
  }

  lemma {:induction false} MergeAnchored(decisions: seq<Decision>, incoming: Incoming, k: nat, recover: (seq<Symbol>, Decision) -> Option<Symbol>)
    requires k <= |incoming.decisions| && MergeFrom(decisions, incoming, k, recover).Some?
    ensures Anchored(decisions, MergeFrom(decisions, incoming, k, recover).value)
    decreases |incoming.decisions| - k
  {
    hide TargetOf;
    if k < |incoming.decisions| {
      MergeAnchored(MergeOne(decisions, incoming, incoming.decisions[k], recover).value, incoming, k + 1, recover);
    }
  }

  /** Targets go by symbols alone, and those never change. */
  lemma TargetStable(a: seq<Decision>, b: seq<Decision>, incoming: Incoming, d: Decision, recover: (seq<Symbol>, Decision) -> Option<Symbol>)
    requires Anchored(a, b)
    ensures TargetOf(a, incoming, d, recover) == TargetOf(b, incoming, d, recover)
  {
    IndexStable(a, b, d.symbol);
    assert Symbols(a) == Symbols(b);
    forall s ensures IndexOf(a, s) == IndexOf(b, s) { IndexStable(a, b, s); }
  }

  lemma IndexStable(a: seq<Decision>, b: seq<Decision>, s: Symbol)
    requires Anchored(a, b)
    ensures IndexOf(a, s) == IndexOf(b, s)
  {
    var i, j := IndexOf(a, s), IndexOf(b, s);
    if i.Some? && j.Some? {
      assert i.value <= j.value && j.value <= i.value by {
        assert a[j.value].symbol == s && b[i.value].symbol == s;
      }
    }
  }

  /** The origins given for a declaration that is not listed all name `s`. */
  ghost predicate OneOrigin(incoming: Incoming, d: Decision, s: Symbol) {
    (d.symbol, s) in incoming.origins && forall m :: m in incoming.origins && m.0 == d.symbol ==> m.1 == s
  }

  /** The decision is about the declaration `s`: it names it, or is about one that is not listed
      and comes from `s`, by the origins given or, without any, by the recovery. */
  ghost predicate About(decisions: seq<Decision>, incoming: Incoming, d: Decision, s: Symbol, recover: (seq<Symbol>, Decision) -> Option<Symbol>) {
    if d.symbol in Symbols(decisions) then s == d.symbol
    else if exists m :: m in incoming.origins && m.0 == d.symbol then OneOrigin(incoming, d, s)
    else recover(Symbols(decisions), d) == Some(s)
  }

  /** Entry `i`, the first of its symbol, is what the decision is about, or what it names. */
  ghost predicate Concerns(decisions: seq<Decision>, incoming: Incoming, d: Decision, i: nat, named: bool, recover: (seq<Symbol>, Decision) -> Option<Symbol>) {
    && i < |decisions| && (forall j :: 0 <= j < i ==> decisions[j].symbol != decisions[i].symbol)
    && if named then d.symbol == decisions[i].symbol else About(decisions, incoming, d, decisions[i].symbol, recover)
  }

  /** A decision changes the entry it is about, and is refused if there is none. */
  lemma TargetIs(decisions: seq<Decision>, incoming: Incoming, d: Decision, i: nat, recover: (seq<Symbol>, Decision) -> Option<Symbol>)
    ensures var target := TargetOf(decisions, incoming, d, recover);
      && (!target.Refused? && target.at == i <==> Concerns(decisions, incoming, d, i, false, recover))
      && (target.Same? && target.at == i <==> Concerns(decisions, incoming, d, i, true, recover))
  {
    hide Origins, About, OneOrigin;
    Listed(decisions, d.symbol);
    if i < |decisions| { FirstListed(decisions, i); }
    if IndexOf(decisions, d.symbol).None? {
      AboutOrigin(decisions, incoming, d, recover);
    } else {
      AboutItself(decisions, incoming, d, recover);
    }
  }

  lemma Listed(decisions: seq<Decision>, s: Symbol)
    ensures s in Symbols(decisions) <==> IndexOf(decisions, s).Some?
  {
    if i :| 0 <= i < |decisions| && decisions[i].symbol == s { assert Symbols(decisions)[i] == s; }
  }

  lemma FirstListed(decisions: seq<Decision>, i: nat)
    requires i < |decisions|
    ensures IndexOf(decisions, decisions[i].symbol) == Some(i) <==> forall j :: 0 <= j < i ==> decisions[j].symbol != decisions[i].symbol
  {
    var at := IndexOf(decisions, decisions[i].symbol);
    assert at.Some?;
  }

  lemma AboutItself(decisions: seq<Decision>, incoming: Incoming, d: Decision, recover: (seq<Symbol>, Decision) -> Option<Symbol>)
    requires d.symbol in Symbols(decisions)
    ensures forall s :: About(decisions, incoming, d, s, recover) <==> s == d.symbol
  {
  }

  lemma AboutOrigin(decisions: seq<Decision>, incoming: Incoming, d: Decision, recover: (seq<Symbol>, Decision) -> Option<Symbol>)
    requires d.symbol !in Symbols(decisions)
    ensures forall s :: About(decisions, incoming, d, s, recover) <==> Origins(decisions, incoming, d, recover) == {s}
  {
    var mapped := set m | m in incoming.origins && m.0 == d.symbol :: m.1;
    forall s ensures About(decisions, incoming, d, s, recover) <==> Origins(decisions, incoming, d, recover) == {s} {
      if m :| m in incoming.origins && m.0 == d.symbol {
        assert m.1 in mapped && m == (d.symbol, m.1);
        if mapped == {s} {
          forall o | o in incoming.origins && o.0 == d.symbol ensures o.1 == s { assert o.1 in mapped; }
        }
        if OneOrigin(incoming, d, s) { assert s in mapped; }
      } else {
        assert mapped == {};
      }
    }
  }

  /** The last of the decisions from `k` on that is about entry `i`, or names it. */
  ghost function LastFor(first: seq<Decision>, incoming: Incoming, k: nat, i: nat, named: bool, recover: (seq<Symbol>, Decision) -> Option<Symbol>): Option<Decision>
    requires k <= |incoming.decisions|
    decreases |incoming.decisions| - k
  {
    if k == |incoming.decisions| then None
    else
      var later := LastFor(first, incoming, k + 1, i, named, recover);
      if later.Some? then later
      else if Concerns(first, incoming, incoming.decisions[k], i, named, recover) then Some(incoming.decisions[k]) else None
  }

  /** The entry after the decisions: the ownership of the last one about it, the rest from the
      last one that names it. */
  ghost predicate Latest(about: Option<Decision>, named: Option<Decision>, entry: Decision, now: Decision) {
    && now.ownership == (match about case Some(d) => d.ownership case None => entry.ownership)
    && now.detail == (match named case Some(d) => d.detail case None => entry.detail)
  }

  lemma {:induction false} LastDecisionStands(first: seq<Decision>, decisions: seq<Decision>, incoming: Incoming, k: nat, i: nat, recover: (seq<Symbol>, Decision) -> Option<Symbol>)
    requires Anchored(first, decisions) && k <= |incoming.decisions| && i < |first|
    requires MergeFrom(decisions, incoming, k, recover).Some?
    ensures i < |MergeFrom(decisions, incoming, k, recover).value|
    ensures Latest(LastFor(first, incoming, k, i, false, recover), LastFor(first, incoming, k, i, true, recover),
                   decisions[i], MergeFrom(decisions, incoming, k, recover).value[i])
    decreases |incoming.decisions| - k
  {
    hide TargetOf, Concerns;
    if k < |incoming.decisions| {
      TargetStable(first, decisions, incoming, incoming.decisions[k], recover);
      TargetIs(first, incoming, incoming.decisions[k], i, recover);
      LastDecisionStands(first, MergeOne(decisions, incoming, incoming.decisions[k], recover).value, incoming, k + 1, i, recover);
    }
  }

  ghost predicate Known(decisions: seq<Decision>, incoming: Incoming, d: Decision, recover: (seq<Symbol>, Decision) -> Option<Symbol>) {
    exists i: nat :: Concerns(decisions, incoming, d, i, false, recover)
  }

  /** A merge goes through exactly if every decision is about an entry. */
  lemma {:induction false} MergeGoesThrough(first: seq<Decision>, decisions: seq<Decision>, incoming: Incoming, k: nat, recover: (seq<Symbol>, Decision) -> Option<Symbol>)
    requires Anchored(first, decisions) && k <= |incoming.decisions|
    ensures MergeFrom(decisions, incoming, k, recover).Some? <==>
      forall n :: k <= n < |incoming.decisions| ==> Known(first, incoming, incoming.decisions[n], recover)
    decreases |incoming.decisions| - k
  {
    hide TargetOf, Known, MergeFrom;
    if k < |incoming.decisions| {
      var d := incoming.decisions[k];
      MergeUnfold(decisions, incoming, k, recover);
      TargetStable(first, decisions, incoming, d, recover);
      TargetKnown(first, incoming, d, recover);
      if !TargetOf(first, incoming, d, recover).Refused? {
        MergeGoesThrough(first, MergeOne(decisions, incoming, d, recover).value, incoming, k + 1, recover);
      }
    } else {
      MergeUnfold(decisions, incoming, k, recover);
    }
  }

  lemma TargetKnown(decisions: seq<Decision>, incoming: Incoming, d: Decision, recover: (seq<Symbol>, Decision) -> Option<Symbol>)
    ensures TargetOf(decisions, incoming, d, recover).Refused? <==> !Known(decisions, incoming, d, recover)
  {
    hide TargetOf, Concerns;
    forall i: nat { TargetIs(decisions, incoming, d, i, recover); }
    var target := TargetOf(decisions, incoming, d, recover);
    if !target.Refused? { assert Concerns(decisions, incoming, d, target.at, false, recover); }
  }

  lemma MergeUnfold(decisions: seq<Decision>, incoming: Incoming, k: nat, recover: (seq<Symbol>, Decision) -> Option<Symbol>)
    requires k <= |incoming.decisions|
    ensures k == |incoming.decisions| ==> MergeFrom(decisions, incoming, k, recover).Some?
    ensures k < |incoming.decisions| ==>
      var next := MergeOne(decisions, incoming, incoming.decisions[k], recover);
      MergeFrom(decisions, incoming, k, recover) == if next.None? then None else MergeFrom(next.value, incoming, k + 1, recover)
  {
    hide TargetOf, MergeOne;
  }

  /** The merges of several rounds, one after another. */
  function MergeRounds(decisions: seq<Decision>, rounds: seq<Incoming>, recover: (seq<Symbol>, Decision) -> Option<Symbol>): Option<seq<Decision>>
    decreases |rounds|
  {
    if rounds == [] then Some(decisions)
    else match MergeFrom(decisions, rounds[0], 0, recover)
      case None => None
      case Some(next) => MergeRounds(next, rounds[1..], recover)
  }

  /** The merges of a run go through exactly if every decision of every round is about an entry of
      the first plan. */
  lemma {:induction false} RunGoesThrough(first: seq<Decision>, decisions: seq<Decision>, rounds: seq<Incoming>, recover: (seq<Symbol>, Decision) -> Option<Symbol>)
    requires Anchored(first, decisions)
    ensures MergeRounds(decisions, rounds, recover).Some? <==>
      forall r, n :: 0 <= r < |rounds| && 0 <= n < |rounds[r].decisions| ==> Known(first, rounds[r], rounds[r].decisions[n], recover)
    decreases |rounds|
  {
    if rounds != [] {
      hide MergeFrom, Known;
      MergeGoesThrough(first, decisions, rounds[0], 0, recover);
      var next := MergeFrom(decisions, rounds[0], 0, recover);
      if next.Some? {
        MergeAnchored(decisions, rounds[0], 0, recover);
        RunGoesThrough(first, next.value, rounds[1..], recover);
        assert forall r :: 1 <= r < |rounds| ==> rounds[r] == rounds[1..][r - 1];
      }
    }
  }

  ghost function LastOfRounds(first: seq<Decision>, rounds: seq<Incoming>, i: nat, named: bool, recover: (seq<Symbol>, Decision) -> Option<Symbol>): Option<Decision>
    decreases |rounds|
  {
    if rounds == [] then None
    else
      var later := LastOfRounds(first, rounds[1..], i, named, recover);
      if later.Some? then later else LastFor(first, rounds[0], 0, i, named, recover)
  }

  /** Main result: over any run of successful merges the aggregate lists the declarations of the
      first plan at their original places, none added and none lost; each is owned as the last
      decision about it said, and has the details of the last one that named it. */
  lemma {:induction false} AggregateStaysAnchored(first: seq<Decision>, decisions: seq<Decision>, rounds: seq<Incoming>, recover: (seq<Symbol>, Decision) -> Option<Symbol>)
    requires Anchored(first, decisions) && MergeRounds(decisions, rounds, recover).Some?
    ensures var r := MergeRounds(decisions, rounds, recover).value;
      && Anchored(first, r)
      && forall i :: 0 <= i < |first| ==>
        Latest(LastOfRounds(first, rounds, i, false, recover), LastOfRounds(first, rounds, i, true, recover), decisions[i], r[i])
    decreases |rounds|
  {
    if rounds != [] {
      hide MergeFrom, LastFor;
      var next := MergeFrom(decisions, rounds[0], 0, recover).value;
      MergeAnchored(decisions, rounds[0], 0, recover);
      forall i | 0 <= i < |first|
        ensures Latest(LastFor(first, rounds[0], 0, i, false, recover), LastFor(first, rounds[0], 0, i, true, recover), decisions[i], next[i])
      {
        LastDecisionStands(first, decisions, rounds[0], 0, i, recover);
      }
      AggregateStaysAnchored(first, next, rounds[1..], recover);
    }
  }
}
