/** What is left out of a canvas and what comes along with a selection (`canvas-filter.ts`). */
module CanvasFilter {
  import opened Wires
  import opened Wrappers

  datatype Component = Group(typeGuid: string, members: seq<string>) | Other(typeGuid: string)

  type Components = map<string, Component>

  /** What stands before the first dot, or the whole handle: `split(".")[0]`, unlike `SubGraphs.Owner`. */
  function Owner(handle: string): string {
    if handle == "" || handle[0] == '.' then "" else [handle[0]] + Owner(handle[1..])
  }

  predicate BelongsTo(handle: string, x: string) {
    '.' !in x && (handle == x || x + "." <= handle)
  }

  lemma {:induction false} OwnerIsExact(handle: string, x: string)
    ensures Owner(handle) == x <==> BelongsTo(handle, x)
  {
    if handle == "" {
    } else if handle[0] == '.' {
      assert x != "" ==> (x + ".")[0] == x[0] && x[0] in x;
    } else if x == "" {
      assert Owner(handle) != "";
    } else {
      OwnerIsExact(handle[1..], x[1..]);
      assert x == [x[0]] + x[1..] && handle == [handle[0]] + handle[1..];
      assert BelongsTo(handle, x) ==> (x + ".")[1..] == x[1..] + "." && BelongsTo(handle[1..], x[1..]);
      if x[0] == handle[0] && BelongsTo(handle[1..], x[1..]) {
        assert x + "." == [x[0]] + (x[1..] + ".");
      }
    }
  }

  // ----- Exclusion -----

  predicate Joins(wire: Wire, x: string, y: string) {
    (Owner(wire.source) == x && Owner(wire.target) == y) || (Owner(wire.source) == y && Owner(wire.target) == x)
  }

  ghost predicate Neighbours(wires: seq<Wire>, x: string, y: string) {
    exists i :: 0 <= i < |wires| && Joins(wires[i], x, y)
  }

  ghost predicate Wired(wires: seq<Wire>, x: string) {
    exists y :: Neighbours(wires, x, y)
  }

  /** A wired node all of whose neighbours are in the set. */
  ghost predicate CutOff(wires: seq<Wire>, x: string, s: set<string>) {
    Wired(wires, x) && forall y :: Neighbours(wires, x, y) ==> y in s
  }

  /** Nothing outside the set is cut off by it. */
  ghost predicate ClosedUnderCuts(wires: seq<Wire>, s: set<string>) {
    forall x :: CutOff(wires, x, s) ==> x in s
  }

  function AllOwners(wires: seq<Wire>): set<string> {
    (set wire | wire in wires :: Owner(wire.source)) + (set wire | wire in wires :: Owner(wire.target))
  }

  lemma WiredIsOwner(wires: seq<Wire>, x: string)
    ensures Wired(wires, x) <==> x in AllOwners(wires)
  {
    if Wired(wires, x) {
      var y :| Neighbours(wires, x, y);
      var i :| 0 <= i < |wires| && Joins(wires[i], x, y);
      assert wires[i] in wires;
    } else if x in AllOwners(wires) {
      var wire :| wire in wires && (Owner(wire.source) == x || Owner(wire.target) == x);
      var i :| 0 <= i < |wires| && wires[i] == wire;
      assert Joins(wires[i], x, if Owner(wire.source) == x then Owner(wire.target) else Owner(wire.source));
      assert Neighbours(wires, x, if Owner(wire.source) == x then Owner(wire.target) else Owner(wire.source));
      assert false;
    }
  }

  /** One more round of exclusion. */
  ghost function Round(wires: seq<Wire>, s: set<string>): set<string> {
    s + set x | x in AllOwners(wires) && CutOff(wires, x, s)
  }

  ghost function Rounds(wires: seq<Wire>, s: set<string>, n: nat): set<string> {
    if n == 0 then s else Round(wires, Rounds(wires, s, n - 1))
  }

  /** A node that a round excludes has no neighbours outside the set before, so it cuts off nobody else. */
  lemma RoundIsClosed(wires: seq<Wire>, s: set<string>)
    ensures ClosedUnderCuts(wires, Round(wires, s))
  {
    var after := Round(wires, s);
    forall x | CutOff(wires, x, after) ensures x in after {
      WiredIsOwner(wires, x);
      if exists y :: Neighbours(wires, x, y) && y !in s {
        var y :| Neighbours(wires, x, y) && y !in s;
        assert CutOff(wires, y, s);
        assert Neighbours(wires, y, x);
        assert x in s;
      } else {
        assert CutOff(wires, x, s);
      }
    }
  }

  /** One pass reaches the fixpoint: further rounds add nothing. */
  lemma {:induction false} OnePassIsEnough(wires: seq<Wire>, s: set<string>, n: nat)
    requires n >= 1
    ensures Rounds(wires, s, n) == Round(wires, s)
  {
    if n > 1 {
      OnePassIsEnough(wires, s, n - 1);
      RoundIsClosed(wires, s);
    }
  }

  /** It is the least set that contains the initial exclusions and is closed under cuts. */
  lemma RoundIsLeast(wires: seq<Wire>, s: set<string>, other: set<string>)
    requires s <= other && ClosedUnderCuts(wires, other)
    ensures Round(wires, s) <= other
  {
    forall x | CutOff(wires, x, s) ensures x in other {
      assert CutOff(wires, x, other);
    }
  }

  ghost predicate IsAdjacency(wires: seq<Wire>, adjacency: map<string, set<string>>) {
    && adjacency.Keys == AllOwners(wires)
    && forall x, y :: x in adjacency ==> (y in adjacency[x] <==> Neighbours(wires, x, y))
  }

  method BuildAdjacency(wires: seq<Wire>) returns (adjacency: map<string, set<string>>)
    ensures IsAdjacency(wires, adjacency)
  {
    adjacency := map[];
    for i := 0 to |wires|
      invariant IsAdjacency(wires[..i], adjacency)
    {
      var x, y := Owner(wires[i].source), Owner(wires[i].target);
      adjacency := AddWire(wires[..i], wires[i], x, y, adjacency);
      assert wires[..i + 1] == wires[..i] + [wires[i]];
    }
    assert wires[..|wires|] == wires;
  }

  method AddWire(ghost wires: seq<Wire>, ghost wire: Wire, x: string, y: string, before: map<string, set<string>>)
    returns (adjacency: map<string, set<string>>)
    requires IsAdjacency(wires, before) && x == Owner(wire.source) && y == Owner(wire.target)
    ensures IsAdjacency(wires + [wire], adjacency)
  {
    adjacency := before;
    if x !in adjacency {
      adjacency := adjacency[x := {}];
    }
    if y !in adjacency {
      adjacency := adjacency[y := {}];
    }
    adjacency := adjacency[x := adjacency[x] + {y}];
    adjacency := adjacency[y := adjacency[y] + {x}];
    forall a, b | a in adjacency ensures b in adjacency[a] <==> Neighbours(wires + [wire], a, b) {
      NeighboursByOneMore(wires, wire, a, b);
      if a !in before {
        WiredIsOwner(wires, a);
      } else {
        assert b in before[a] <==> Neighbours(wires, a, b);
      }
    }
    OwnersByOneMore(wires, wire);
  }

  lemma OwnersByOneMore(wires: seq<Wire>, wire: Wire)
    ensures AllOwners(wires + [wire]) == AllOwners(wires) + {Owner(wire.source), Owner(wire.target)}
  {
    var more := wires + [wire];
    assert wire in more && forall w :: w in wires ==> w in more;
  }

  lemma NeighboursByOneMore(wires: seq<Wire>, wire: Wire, a: string, b: string)
    ensures Neighbours(wires + [wire], a, b) <==> Neighbours(wires, a, b) || Joins(wire, a, b)
  {
    var more := wires + [wire];
    if Neighbours(wires, a, b) {
      var i :| 0 <= i < |wires| && Joins(wires[i], a, b);
      assert more[i] == wires[i];
    }
    assert more[|wires|] == wire;
  }

  method ExpandExcludedIds(wires: seq<Wire>, initial: set<string>) returns (excluded: set<string>)
    ensures excluded == Round(wires, initial)
  {
    var adjacency := BuildAdjacency(wires);
    excluded := initial;
    var todo := adjacency.Keys;
    ghost var done: set<string> := {};
    while todo != {}
      invariant done + todo == adjacency.Keys
      invariant excluded == initial + set x | x in done && CutOff(wires, x, initial)
    {
      var id :| id in todo;
      todo, done := todo - {id}, done + {id};
      WiredIsOwner(wires, id);
      assert adjacency[id] <= initial <==> CutOff(wires, id, initial);
      if adjacency[id] <= initial {
        excluded := excluded + {id};
      }
    }
  }

  // ----- What is left of the canvas -----

  function KeptWires(wires: seq<Wire>, excluded: set<string>): seq<Wire> {
    if wires == [] then []
    else
      var last := wires[|wires| - 1];
      KeptWires(wires[..|wires| - 1], excluded) +
      if Owner(last.source) !in excluded && Owner(last.target) !in excluded then [last] else []
  }

  function InitiallyExcluded(components: Components, types: set<string>): set<string> {
    set id | id in components && components[id].typeGuid in types
  }

  method ApplyCanvasExclusions(components: Components, wires: seq<Wire>, types: set<string>)
    returns (kept: Components, keptWires: seq<Wire>)
    ensures var excluded := Round(wires, InitiallyExcluded(components, types));
            kept == components - excluded && keptWires == KeptWires(wires, excluded)
  {
    var excluded := ExpandExcludedIds(wires, InitiallyExcluded(components, types));
    kept := components - excluded;
    keptWires := KeptWires(wires, excluded);
  }

  /** A component is of one of the types left out. */
  predicate LeftOut(components: Components, types: set<string>, id: string) {
    id in components && components[id].typeGuid in types
  }

  /** Who stays: every component that is of none of the types left out, unless it has wires and all of them lead to
      components of those types.  A wire stays if both its ends do. */
  lemma WhoStaysExactly(components: Components, wires: seq<Wire>, types: set<string>, id: string)
    requires id in components
    ensures id in components - Round(wires, InitiallyExcluded(components, types)) <==>
              && components[id].typeGuid !in types
              && (Wired(wires, id) ==> exists y :: Neighbours(wires, id, y) && !LeftOut(components, types, y))
  {
    WiredIsOwner(wires, id);
    assert forall y :: y in InitiallyExcluded(components, types) <==> LeftOut(components, types, y);
  }

  lemma {:induction false} KeptWiresAre(wires: seq<Wire>, excluded: set<string>, wire: Wire)
    ensures wire in KeptWires(wires, excluded) <==>
              wire in wires && Owner(wire.source) !in excluded && Owner(wire.target) !in excluded
  {
    if wires != [] {
      KeptWiresAre(wires[..|wires| - 1], excluded, wire);
      assert wires == wires[..|wires| - 1] + [wires[|wires| - 1]];
    }
  }

  /** A node that stays keeps a wire: nobody is left without the wires it had. */
  lemma WhoStaysKeepsAWire(wires: seq<Wire>, initial: set<string>, x: string)
    requires Wired(wires, x) && x !in Round(wires, initial)
    ensures Wired(KeptWires(wires, Round(wires, initial)), x)
  {
    var excluded := Round(wires, initial);
    WiredIsOwner(wires, x);
    assert !CutOff(wires, x, initial);
    var y :| Neighbours(wires, x, y) && y !in initial;
    assert Neighbours(wires, y, x);
    assert y !in excluded;
    var i :| 0 <= i < |wires| && Joins(wires[i], x, y);
    KeptWiresAre(wires, excluded, wires[i]);
    var kept := KeptWires(wires, excluded);
    var j :| 0 <= j < |kept| && kept[j] == wires[i];
    assert Neighbours(kept, x, y);
  }

  lemma {:induction false} KeepingAll(wires: seq<Wire>, excluded: set<string>)
    requires forall wire :: wire in wires ==> Owner(wire.source) !in excluded && Owner(wire.target) !in excluded
    ensures KeptWires(wires, excluded) == wires
  {
    if wires != [] {
      var front, last := wires[..|wires| - 1], wires[|wires| - 1];
      assert wires == front + [last];
      KeepingAll(front, excluded);
      assert last in wires;
    }
  }

  /** Excluding once more takes nothing away. */
  lemma ExclusionIsFinal(components: Components, wires: seq<Wire>, types: set<string>)
    ensures var excluded := Round(wires, InitiallyExcluded(components, types));
            var kept, keptWires := components - excluded, KeptWires(wires, excluded);
            var again := Round(keptWires, InitiallyExcluded(kept, types));
            kept - again == kept && KeptWires(keptWires, again) == keptWires
  {
    var excluded := Round(wires, InitiallyExcluded(components, types));
    var kept, keptWires := components - excluded, KeptWires(wires, excluded);
    assert InitiallyExcluded(kept, types) == {};
    var again := Round(keptWires, {});
    assert again == {};
    KeepingAll(keptWires, {});
  }

  // ----- Selection -----

  function MembersOf(components: Components, id: string): set<string> {
    if id in components && components[id].Group? then set m | m in components[id].members else {}
  }

  /** The set holds all members of the groups in it. */
  predicate ClosedUnderGroups(components: Components, s: set<string>) {
    forall id :: id in s && id in components && components[id].Group? ==>
      forall m :: m in components[id].members ==> m in s
  }

  /** The set is part of every closed set with the selection in it. */
  ghost predicate Needed(components: Components, selected: set<string>, s: set<string>) {
    forall other :: selected <= other && ClosedUnderGroups(components, other) ==> s <= other
  }

  /** Everything that could ever be selected. */
  ghost function Selectable(components: Components, selected: set<string>): set<string> {
    selected + set id, m | id in components && m in MembersOf(components, id) :: m
  }

  lemma ClosedByMembers(components: Components, s: set<string>)
    ensures ClosedUnderGroups(components, s) <==> forall id :: id in s ==> MembersOf(components, id) <= s
  {
    forall id | id in s && id in components && components[id].Group?
      ensures MembersOf(components, id) <= s <==> forall m :: m in components[id].members ==> m in s
    {
      assert forall m :: m in components[id].members ==> m in MembersOf(components, id);
    }
  }

  lemma MembersAreNeeded(components: Components, selected: set<string>, s: set<string>, id: string)
    requires Needed(components, selected, s) && id in s && s <= Selectable(components, selected)
    ensures Needed(components, selected, s + MembersOf(components, id))
    ensures s + MembersOf(components, id) <= Selectable(components, selected)
  {
  }

  /** The iteration over the growing set: the least set that holds the selection and all members of the
      groups in it, however deep they are nested. */
  method ExpandSelectedIdsForGroups(components: Components, selected: set<string>) returns (expanded: set<string>)
    ensures selected <= expanded && ClosedUnderGroups(components, expanded)
    ensures Needed(components, selected, expanded)
  {
    hide Needed, Selectable, MembersOf;
    expanded := selected;
    var visited: set<string> := {};
    SelectionIsNeeded(components, selected);
    while expanded - visited != {}
      invariant visited <= expanded && selected <= expanded <= Selectable(components, selected)
      invariant forall id :: id in visited ==> MembersOf(components, id) <= expanded
      invariant Needed(components, selected, expanded)
      decreases |Selectable(components, selected) - visited|
    {
      var id :| id in expanded - visited;
      MembersAreNeeded(components, selected, expanded, id);
      OneLess(Selectable(components, selected), visited, id);
      visited := visited + {id};
      expanded := expanded + MembersOf(components, id);
    }
    ClosedByMembers(components, expanded);
  }

  lemma OneLess(all: set<string>, done: set<string>, id: string)
    requires id in all && id !in done
    ensures |all - (done + {id})| < |all - done|
  {
    assert all - (done + {id}) == (all - done) - {id};
  }

  lemma SelectionIsNeeded(components: Components, selected: set<string>)
    ensures Needed(components, selected, selected) && selected <= Selectable(components, selected)
  {
  }
}
