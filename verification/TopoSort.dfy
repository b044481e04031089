/**
 The three-colour depth-first sort that puts a batch of definitions children first.
 */
module TopoSort {

  type Name = nat

  /** The child names each definition of the batch refers to, in order: itself and names outside the
      batch included. */
  type Graph = map<Name, seq<Name>>

  /** A reference that orders the batch: within it, and not to oneself. */
  predicate Edge(g: Graph, a: Name, b: Name) {
    a in g && b in g[a] && b != a && b in g
  }

  ghost predicate IsPath(g: Graph, p: seq<Name>) {
    forall i :: 0 <= i < |p| - 1 ==> Edge(g, p[i], p[i + 1])
  }

  ghost predicate HasCycle(g: Graph) {
    exists p :: |p| > 1 && IsPath(g, p) && p[0] == p[|p| - 1]
  }

  ghost predicate Distinct(s: seq<Name>) {
    forall i, j :: 0 <= i < j < |s| ==> s[i] != s[j]
  }

  /** Every listed name's children are listed before it. */
  ghost predicate ChildrenFirst(g: Graph, s: seq<Name>) {
    forall i, b :: 0 <= i < |s| && Edge(g, s[i], b) ==> b in s[..i]
  }

  ghost predicate Topological(g: Graph, s: seq<Name>) {
    Distinct(s) && (forall n :: n in s <==> n in g) && ChildrenFirst(g, s)
  }

  /** Along a path through a children-first list positions fall, so it never comes back. */
  lemma {:induction false} PathFalls(g: Graph, s: seq<Name>, p: seq<Name>, i: nat, k: nat) returns (j: nat)
    requires ChildrenFirst(g, s) && IsPath(g, p) && k < |p| && i < |s| && s[i] == p[0]
    ensures j < |s| && s[j] == p[k] && j <= i && (k > 0 ==> j < i)
    decreases k
  {
    if k == 0 {
      j := i;
    } else {
      var m := PathFalls(g, s, p, i, k - 1);
      assert Edge(g, p[k - 1], p[k - 1 + 1]);
      assert p[k] in s[..m];
      j :| 0 <= j < m && s[j] == p[k];
    }
  }

  lemma SortedMeansAcyclic(g: Graph, s: seq<Name>)
    requires Topological(g, s)
    ensures !HasCycle(g)
  {
    forall p | |p| > 1 && IsPath(g, p)
      ensures p[0] != p[|p| - 1]
    {
      assert Edge(g, p[0], p[0 + 1]);
      var i :| 0 <= i < |s| && s[i] == p[0];
      var j := PathFalls(g, s, p, i, |p| - 1);
      assert s[j] != s[i];
    }
  }

  lemma AppendParent(g: Graph, s: seq<Name>, name: Name)
    requires ChildrenFirst(g, s) && forall b :: Edge(g, name, b) ==> b in s
    ensures ChildrenFirst(g, s + [name])
  {
    var t := s + [name];
    forall i, b | 0 <= i < |t| && Edge(g, t[i], b)
      ensures b in t[..i]
    {
      assert i < |s| ==> t[..i] == s[..i] && Edge(g, s[i], b);
      assert i == |s| ==> t[..i] == s;
    }
  }

  datatype Colour = Visiting | Done

  class Sorter {
    const g: Graph
    var state: map<Name, Colour>
    var sorted: seq<Name>

    constructor (g: Graph)
      ensures this.g == g && state == map[] && sorted == []
    {
      this.g, state, sorted := g, map[], [];
    }

    /** Done names are the sorted ones, each after its children; those being visited are the path
        the search has come down. */
    ghost predicate Valid(stack: seq<Name>)
      reads this
    {
      && Distinct(sorted) && ChildrenFirst(g, sorted) && IsPath(g, stack)
      && (forall n :: n in state ==> n in g)
      && (forall n :: n in sorted <==> n in state && state[n] == Done)
      && (forall n :: n in stack <==> n in state && state[n] == Visiting)
    }

    ghost function Unvisited(): (s: set<Name>)
      reads this
    {
      g.Keys - state.Keys
    }

    method Visit(name: Name, ghost stack: seq<Name>) returns (ok: bool)
      requires Valid(stack) && name in g && (stack == [] || Edge(g, stack[|stack| - 1], name))
      modifies this`state, this`sorted
      ensures !ok ==> HasCycle(g)
      ensures ok ==> Valid(stack) && name in sorted && old(sorted) <= sorted && old(state.Keys) <= state.Keys
      decreases Unvisited(), 1
    {
      if name in state && state[name] == Done {
        return true;
      }
      if name in state {
        CycleOnStack(g, stack, name);
        return false;
      }
      state := state[name := Visiting];
      assert name in old(Unvisited()) && name !in Unvisited();
      ghost var deeper := stack + [name];
      ok := VisitChildren(name, deeper);
      if ok {
        AppendParent(g, sorted, name);
        state := state[name := Done];
        sorted := sorted + [name];
      }
    }

    method VisitChildren(name: Name, ghost stack: seq<Name>) returns (ok: bool)
      requires Valid(stack) && name in g && stack != [] && stack[|stack| - 1] == name
      requires forall i :: 0 <= i < |stack| - 1 ==> stack[i] != name
      modifies this`state, this`sorted
      ensures !ok ==> HasCycle(g)
      ensures ok ==> Valid(stack) && old(sorted) <= sorted && old(state.Keys) <= state.Keys
      ensures ok ==> forall b :: Edge(g, name, b) ==> b in sorted
      decreases Unvisited(), 2
    {
      var names := g[name];
      for i := 0 to |names|
        invariant Valid(stack) && old(sorted) <= sorted && old(state.Keys) <= state.Keys
        invariant forall k :: 0 <= k < i && Edge(g, name, names[k]) ==> names[k] in sorted
      {
        var child := names[i];
        if child == name || child !in g {
          continue;
        }
        assert Edge(g, name, child);
        ok := Visit(child, stack);
        if !ok {
          return false;
        }
      }
      return true;
    }
  }

  lemma CycleOnStack(g: Graph, stack: seq<Name>, name: Name)
    requires IsPath(g, stack) && name in stack && Edge(g, stack[|stack| - 1], name)
    ensures HasCycle(g)
  {
    var i :| 0 <= i < |stack| && stack[i] == name;
    var p := stack[i..] + [name];
    forall k | 0 <= k < |p| - 1
      ensures Edge(g, p[k], p[k + 1])
    {
      assert p[k] == stack[i + k];
      assert k < |p| - 2 ==> p[k + 1] == stack[i + k + 1] && Edge(g, stack[i + k], stack[i + k + 1]);
    }
    assert IsPath(g, p) && p[0] == name && p[|p| - 1] == name;
  }

  /** topoSort succeeds exactly when the references within the batch, leaving out those of a
      definition to itself, have no cycle; it then lists every name once, children first. */
  method Sort(g: Graph, names: seq<Name>) returns (ok: bool, sorted: seq<Name>)
    requires forall n :: n in names <==> n in g
    ensures ok <==> !HasCycle(g)
    ensures ok ==> Topological(g, sorted)
  {
    var s := new Sorter(g);
    for i := 0 to |names|
      invariant s.g == g && s.Valid([]) && fresh(s)
      invariant forall k :: 0 <= k < i ==> names[k] in s.sorted
    {
      var done := s.Visit(names[i], []);
      if !done {
        return false, [];
      }
    }
    sorted := s.sorted;
    SortedMeansAcyclic(g, sorted);
    return true, sorted;
  }
}
