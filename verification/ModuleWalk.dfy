/** The module walk of the FSDP probe: compile wrappers are looked through, and every module is
    counted once however the modules are shared or linked in cycles. */
module ModuleWalk {
  type Id = nat

  /** The modules of one model: what each wraps, its children and its class. */
  datatype Graph = Graph(modules: set<Id>, wraps: map<Id, Id>, children: map<Id, seq<Id>>, className: map<Id, string>) {
    ghost predicate Valid() {
      && children.Keys == modules && className.Keys == modules
      && (forall m :: m in wraps ==> m in modules && wraps[m] in modules)
      && forall m, i :: m in modules && 0 <= i < |children[m]| ==> children[m][i] in modules
    }
  }

  // ----- unwrap_compiled -----

  /** A module that was seen can only be looked at again when it wraps itself. */
  ghost predicate MayLook(g: Graph, m: Id, seen: set<Id>) {
    m in seen ==> m in g.wraps && g.wraps[m] in seen
  }

  ghost function UnwrapFrom(g: Graph, m: Id, seen: set<Id>): (r: Id)
    requires g.Valid() && m in g.modules && seen <= g.modules && MayLook(g, m, seen)
    ensures r in g.modules
    decreases |g.modules - seen|
  {
    if m !in g.wraps || g.wraps[m] in seen then m
    else
      SmallerRest(g.modules, seen, m);
      UnwrapFrom(g, g.wraps[m], seen + {m})
  }

  lemma SmallerRest(all: set<Id>, seen: set<Id>, m: Id)
    requires m in all && m !in seen
    ensures |all - (seen + {m})| < |all - seen|
  {
    assert all - seen == (all - (seen + {m})) + {m};
  }

  ghost function Unwrap(g: Graph, m: Id): (r: Id)
    requires g.Valid() && m in g.modules
    ensures r in g.modules
  {
    UnwrapFrom(g, m, {})
  }

  /** The loop of `unwrap_compiled`. */
  method UnwrapCompiled(g: Graph, start: Id) returns (r: Id)
    requires g.Valid() && start in g.modules
    ensures r == Unwrap(g, start)
  {
    var seen: set<Id> := {};
    r := start;
    while r in g.wraps && g.wraps[r] !in seen
      invariant r in g.modules && seen <= g.modules && MayLook(g, r, seen)
      invariant UnwrapFrom(g, r, seen) == Unwrap(g, start)
      decreases |g.modules - seen|
    {
      SmallerRest(g.modules, seen, r);
      seen := seen + {r};
      r := g.wraps[r];
    }
  }

  /** The module `k` wrappers below `m`, if the chain is that long. */
  predicate IsBelow(g: Graph, m: Id, k: nat, e: Id)
    decreases k
  {
    if k == 0 then e == m else m in g.wraps && IsBelow(g, g.wraps[m], k - 1, e)
  }

  /** The chain of wrappers of `m` ends at `e`. */
  ghost predicate EndsAt(g: Graph, m: Id, e: Id) {
    e !in g.wraps && exists k: nat :: IsBelow(g, m, k, e)
  }

  /** Where the walk stops is below where it started, and is a wrapper only when it wraps what was seen. */
  lemma {:induction false} StopsBelow(g: Graph, m: Id, seen: set<Id>)
    requires g.Valid() && m in g.modules && seen <= g.modules && MayLook(g, m, seen)
    ensures exists k: nat :: IsBelow(g, m, k, UnwrapFrom(g, m, seen))
    decreases |g.modules - seen|
  {
    if m !in g.wraps || g.wraps[m] in seen {
      assert IsBelow(g, m, 0, UnwrapFrom(g, m, seen));
    } else {
      SmallerRest(g.modules, seen, m);
      StopsBelow(g, g.wraps[m], seen + {m});
      var k: nat :| IsBelow(g, g.wraps[m], k, UnwrapFrom(g, m, seen));
      assert IsBelow(g, m, k + 1, UnwrapFrom(g, m, seen));
    }
  }

  lemma {:induction false} EndIsUnique(g: Graph, m: Id, k: nat, e: Id, j: nat, f: Id)
    requires IsBelow(g, m, k, e) && IsBelow(g, m, j, f) && e !in g.wraps
    ensures j <= k && IsBelow(g, f, k - j, e)
    decreases j
  {
    if j > 0 {
      EndIsUnique(g, g.wraps[m], k - 1, e, j - 1, f);
    }
  }

  /** From `s` the end is more than `k` wrappers away. */
  ghost predicate Farther(g: Graph, s: Id, k: int, e: Id) {
    exists j: nat :: j > k && IsBelow(g, s, j, e)
  }

  /** On a chain that ends the walk never meets a module again, so it runs to the end. */
  lemma {:induction false} RunsToTheEnd(g: Graph, m: Id, seen: set<Id>, k: nat, e: Id)
    requires g.Valid() && m in g.modules && seen <= g.modules && MayLook(g, m, seen)
    requires IsBelow(g, m, k, e) && e !in g.wraps
    requires forall s :: s in seen ==> Farther(g, s, k, e)
    ensures UnwrapFrom(g, m, seen) == e
    decreases k
  {
    if m in g.wraps {
      var next := g.wraps[m];
      if next in seen {
        assert Farther(g, next, k, e);
        var j: nat :| j > k && IsBelow(g, next, j, e);
        EndIsUnique(g, next, k - 1, e, j, e);
      } else {
        forall s | s in seen + {m} ensures Farther(g, s, k - 1, e) {
          assert s in seen ==> Farther(g, s, k, e);
          assert s == m ==> k > k - 1 && IsBelow(g, s, k, e);
        }
        SmallerRest(g.modules, seen, m);
        RunsToTheEnd(g, next, seen + {m}, k - 1, e);
      }
    }
  }

  /** The class reported is a wrapper's if and only if the wrappers form a cycle; otherwise it is that
      of the one module at the end of the chain. */
  lemma UnwrapEndsIff(g: Graph, m: Id)
    requires g.Valid() && m in g.modules
    ensures Unwrap(g, m) !in g.wraps <==> exists e :: EndsAt(g, m, e)
    ensures forall e :: EndsAt(g, m, e) ==> Unwrap(g, m) == e
  {
    StopsBelow(g, m, {});
    if Unwrap(g, m) !in g.wraps {
      assert EndsAt(g, m, Unwrap(g, m));
    }
    forall e | EndsAt(g, m, e) ensures Unwrap(g, m) == e {
      var k: nat :| IsBelow(g, m, k, e);
      RunsToTheEnd(g, m, {}, k, e);
    }
  }

  // ----- module_class_histogram -----

  ghost predicate Child(g: Graph, a: Id, b: Id)
    requires g.Valid() && a in g.modules
  {
    exists i :: 0 <= i < |g.children[a]| && b == Unwrap(g, g.children[a][i])
  }

  /** A path of children, each seen through its wrappers. */
  ghost predicate IsPath(g: Graph, path: seq<Id>)
    requires g.Valid()
  {
    && path != [] && (forall i :: 0 <= i < |path| ==> path[i] in g.modules)
    && forall i :: 0 < i < |path| ==> Child(g, path[i - 1], path[i])
  }

  ghost predicate Leads(g: Graph, root: Id, path: seq<Id>, m: Id)
    requires g.Valid() && root in g.modules
  {
    IsPath(g, path) && path[0] == Unwrap(g, root) && path[|path| - 1] == m
  }

  ghost predicate Reaches(g: Graph, root: Id, m: Id)
    requires g.Valid() && root in g.modules
  {
    exists path :: Leads(g, root, path, m)
  }

  ghost function AllReached(g: Graph, root: Id): (r: set<Id>)
    requires g.Valid() && root in g.modules
    ensures r <= g.modules && forall m :: m in g.modules ==> (m in r <==> Reaches(g, root, m))
  {
    set m | m in g.modules && Reaches(g, root, m)
  }

  lemma RootIsReached(g: Graph, root: Id)
    requires g.Valid() && root in g.modules
    ensures Reaches(g, root, Unwrap(g, root))
  {
    assert Leads(g, root, [Unwrap(g, root)], Unwrap(g, root));
  }

  lemma ChildIsReached(g: Graph, root: Id, a: Id, b: Id)
    requires g.Valid() && root in g.modules && a in g.modules && b in g.modules
    requires Reaches(g, root, a) && Child(g, a, b)
    ensures Reaches(g, root, b)
  {
    var path :| Leads(g, root, path, a);
    var longer := path + [b];
    assert forall i :: 0 <= i < |path| ==> longer[i] == path[i];
    assert Leads(g, root, longer, b);
  }

  ghost predicate Closed(g: Graph, seen: set<Id>)
    requires g.Valid()
  {
    seen <= g.modules && forall a, b :: a in seen && b in g.modules && Child(g, a, b) ==> b in seen
  }

  lemma {:induction false} ClosedHoldsPath(g: Graph, seen: set<Id>, path: seq<Id>)
    requires g.Valid() && Closed(g, seen) && IsPath(g, path) && path[0] in seen
    ensures path[|path| - 1] in seen
  {
    if |path| > 1 {
      var init := path[..|path| - 1];
      assert forall i :: 0 <= i < |init| ==> init[i] == path[i];
      ClosedHoldsPath(g, seen, init);
      assert Child(g, path[|path| - 2], path[|path| - 1]);
    }
  }

  /** A closed set of reached modules that holds the root is all of them. */
  lemma ClosedIsAll(g: Graph, root: Id, seen: set<Id>)
    requires g.Valid() && root in g.modules && Closed(g, seen) && Unwrap(g, root) in seen
    requires forall m :: m in seen ==> Reaches(g, root, m)
    ensures forall m :: m in seen <==> Reaches(g, root, m)
  {
    forall m | Reaches(g, root, m) ensures m in seen {
      var path :| Leads(g, root, path, m);
      ClosedHoldsPath(g, seen, path);
    }
  }

  /** The modules of the set that have this class. */
  ghost function Named(g: Graph, seen: set<Id>, name: string): (r: set<Id>)
    requires g.Valid() && seen <= g.modules
    ensures forall m :: m in r <==> m in seen && g.className[m] == name
  {
    set m | m in seen && g.className[m] == name
  }

  ghost function CountOf(g: Graph, seen: set<Id>, name: string): nat
    requires g.Valid() && seen <= g.modules
  {
    |Named(g, seen, name)|
  }

  lemma CountOneMore(g: Graph, seen: set<Id>, m: Id, name: string)
    requires g.Valid() && seen <= g.modules && m in g.modules && m !in seen
    ensures CountOf(g, seen + {m}, name) == CountOf(g, seen, name) + if g.className[m] == name then 1 else 0
  {
    var before, after := Named(g, seen, name), Named(g, seen + {m}, name);
    assert m !in before;
    assert after == if g.className[m] == name then before + {m} else before;
  }

  function CountIn(histogram: map<string, nat>, name: string): nat {
    if name in histogram then histogram[name] else 0
  }

  ghost predicate Counts(g: Graph, histogram: map<string, nat>, seen: set<Id>)
    requires g.Valid() && seen <= g.modules
  {
    forall name :: CountIn(histogram, name) == CountOf(g, seen, name)
  }

  /** Everything a seen module leads to is seen or on the stack. */
  ghost predicate Covered(g: Graph, seen: set<Id>, stack: seq<Id>)
    requires g.Valid() && seen <= g.modules
  {
    forall a, b :: a in seen && b in g.modules && Child(g, a, b) ==> b in seen || b in stack
  }

  lemma CountNext(g: Graph, histogram: map<string, nat>, seen: set<Id>, m: Id)
    requires g.Valid() && seen <= g.modules && m in g.modules && m !in seen && Counts(g, histogram, seen)
    ensures Counts(g, histogram[g.className[m] := CountIn(histogram, g.className[m]) + 1], seen + {m})
  {
    hide CountOf;
    var next := histogram[g.className[m] := CountIn(histogram, g.className[m]) + 1];
    forall name ensures CountIn(next, name) == CountOf(g, seen + {m}, name) {
      CountOneMore(g, seen, m, name);
    }
  }

  /** The children of one module, pushed one after the other. */
  method PushChildren(g: Graph, current: Id, before: seq<Id>) returns (stack: seq<Id>)
    requires g.Valid() && current in g.modules
    ensures before <= stack
    ensures forall b :: b in g.modules && Child(g, current, b) ==> b in stack
    ensures forall b :: b in stack ==> b in before || (b in g.modules && Child(g, current, b))
  {
    stack := before;
    var children := g.children[current];
    for i := 0 to |children|
      invariant before <= stack
      invariant forall k :: 0 <= k < i ==> Unwrap(g, children[k]) in stack
      invariant forall b :: b in stack ==> b in before || (b in g.modules && Child(g, current, b))
    {
      var child := UnwrapCompiled(g, children[i]);
      assert Child(g, current, child);
      stack := stack + [child];
    }
  }

  /** What is on the stack is in the graph and reached. */
  ghost predicate Waiting(g: Graph, root: Id, stack: seq<Id>)
    requires g.Valid() && root in g.modules
  {
    forall m :: m in stack ==> m in g.modules && Reaches(g, root, m)
  }

  /** Once its children are pushed, a module may be counted as seen. */
  lemma NextIsWaiting(g: Graph, root: Id, seen: set<Id>, before: seq<Id>, current: Id, after: seq<Id>)
    requires g.Valid() && root in g.modules && seen <= g.modules
    requires Waiting(g, root, before + [current]) && Covered(g, seen, before + [current])
    requires before <= after
    requires forall b :: b in g.modules && Child(g, current, b) ==> b in after
    requires forall b :: b in after ==> b in before || (b in g.modules && Child(g, current, b))
    ensures current in g.modules && Waiting(g, root, after) && Covered(g, seen + {current}, after)
  {
    hide Child, Reaches;
    var full := before + [current];
    assert current in full;
    forall m | m in after ensures m in g.modules && Reaches(g, root, m) {
      if m in before {
        assert m in full;
      } else {
        ChildIsReached(g, root, current, m);
      }
    }
  }

  /** `module_class_histogram`: it ends on shared and cyclic graphs, and for every class it counts the
      modules reachable from the root through wrappers and children, each exactly once. */
  method ModuleClassHistogram(g: Graph, root: Id) returns (histogram: map<string, nat>)
    requires g.Valid() && root in g.modules
    ensures forall name :: CountIn(histogram, name) == |Named(g, AllReached(g, root), name)|
  {
    hide Child, Unwrap, CountOf, Reaches, Counts, Waiting, Covered;
    histogram := map[];
    var top := UnwrapCompiled(g, root);
    var stack := [top];
    var seen: set<Id> := {};
    RootIsReached(g, root);
    OnlyRootWaits(g, root);
    NothingCounted(g);
    while stack != []
      invariant seen <= g.modules && Waiting(g, root, stack)
      invariant forall m :: m in seen ==> Reaches(g, root, m)
      invariant top in seen || top in stack
      invariant Covered(g, seen, stack) && Counts(g, histogram, seen)
      decreases |g.modules - seen|, |stack|
    {
      var current := stack[|stack| - 1];
      ghost var full := stack;
      stack := stack[..|stack| - 1];
      assert full == stack + [current];
      if current !in seen {
        TopIsWaiting(g, root, stack, current);
        SmallerRest(g.modules, seen, current);
        CountNext(g, histogram, seen, current);
        ghost var before, counted := stack, seen;
        seen := seen + {current};
        histogram := histogram[g.className[current] := CountIn(histogram, g.className[current]) + 1];
        stack := PushChildren(g, current, stack);
        NextIsWaiting(g, root, counted, before, current, stack);
      } else {
        DropSeen(g, root, seen, stack, current);
      }
    }
    NothingWaits(g, seen);
    ClosedIsAll(g, root, seen);
    assert seen == AllReached(g, root);
    CountsAre(g, histogram, seen);
  }

  lemma TopIsWaiting(g: Graph, root: Id, stack: seq<Id>, current: Id)
    requires g.Valid() && root in g.modules && Waiting(g, root, stack + [current])
    ensures current in g.modules && Reaches(g, root, current)
  {
    hide Reaches;
    assert current in stack + [current];
  }

  lemma OnlyRootWaits(g: Graph, root: Id)
    requires g.Valid() && root in g.modules
    ensures Waiting(g, root, [Unwrap(g, root)]) && Covered(g, {}, [Unwrap(g, root)])
  {
    hide Reaches, Unwrap;
    RootIsReached(g, root);
  }

  lemma NothingWaits(g: Graph, seen: set<Id>)
    requires g.Valid() && seen <= g.modules && Covered(g, seen, [])
    ensures Closed(g, seen)
  {
    hide Child;
  }

  lemma DropSeen(g: Graph, root: Id, seen: set<Id>, stack: seq<Id>, current: Id)
    requires g.Valid() && root in g.modules && seen <= g.modules && current in seen
    requires Waiting(g, root, stack + [current]) && Covered(g, seen, stack + [current])
    ensures Waiting(g, root, stack) && Covered(g, seen, stack)
  {
    hide Reaches, Child;
    assert forall m :: m in stack ==> m in stack + [current];
  }

  lemma CountsAre(g: Graph, histogram: map<string, nat>, seen: set<Id>)
    requires g.Valid() && seen <= g.modules && Counts(g, histogram, seen)
    ensures forall name :: CountIn(histogram, name) == |Named(g, seen, name)|
  {
    forall name ensures CountIn(histogram, name) == |Named(g, seen, name)| {
      assert CountIn(histogram, name) == CountOf(g, seen, name);
    }
  }

  lemma NothingCounted(g: Graph)
    requires g.Valid()
    ensures Counts(g, map[], {})
  {
    forall name ensures CountOf(g, {}, name) == 0 {
      assert Named(g, {}, name) == {};
    }
  }
}
