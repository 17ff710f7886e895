/** The depth-first order in which the package's modules are reloaded. */
module ReloadOrder {
  /** Each module under its name, as the module names its attributes refer to, in order; a name
      outside the package is skipped. */
  type Modules = map<string, seq<string>>

  predicate Edge(modules: Modules, u: string, v: string) {
    u in modules && v in modules && v in modules[u]
  }

  predicate IsPath(modules: Modules, path: seq<string>) {
    path != [] && forall k :: 0 <= k < |path| - 1 ==> Edge(modules, path[k], path[k + 1])
  }

  ghost predicate Reaches(modules: Modules, u: string, v: string) {
    exists path :: IsPath(modules, path) && path[0] == u && path[|path| - 1] == v
  }

  lemma ReachesItself(modules: Modules, u: string)
    ensures Reaches(modules, u, u)
  {
    assert IsPath(modules, [u]);
  }

  lemma ReachesFurther(modules: Modules, u: string, v: string, w: string)
    requires Reaches(modules, u, v) && Edge(modules, v, w)
    ensures Reaches(modules, u, w)
  {
    var path :| IsPath(modules, path) && path[0] == u && path[|path| - 1] == v;
    assert IsPath(modules, path + [w]);
  }

  function Elements(s: seq<string>): set<string> {
    set k | 0 <= k < |s| :: s[k]
  }

  predicate Distinct(s: seq<string>) {
    forall i, j :: 0 <= i < j < |s| ==> s[i] != s[j]
  }

  /** Every dependency of a listed module is listed before it, unless it depends on it in turn. */
  ghost predicate DependenciesFirst(modules: Modules, ordered: seq<string>) {
    forall i, v :: 0 <= i < |ordered| && Edge(modules, ordered[i], v) && v != ordered[i]
      ==> v in ordered[..i] || Reaches(modules, v, ordered[i])
  }

  lemma AppendKeepsOrder(modules: Modules, ordered: seq<string>, name: string)
    requires DependenciesFirst(modules, ordered)
    requires forall v :: Edge(modules, name, v) && v != name ==> v in ordered || Reaches(modules, v, name)
    ensures DependenciesFirst(modules, ordered + [name])
  {
    var longer := ordered + [name];
    forall i, v | 0 <= i < |longer| && Edge(modules, longer[i], v) && v != longer[i]
      ensures v in longer[..i] || Reaches(modules, v, longer[i])
    {
      if i < |ordered| {
        assert longer[i] == ordered[i] && longer[..i] == ordered[..i];
      } else {
        assert longer[..i] == ordered;
      }
    }
  }

  class Reloader {
    const modules: Modules
    var visited: set<string>
    var ordered: seq<string>

    constructor (modules: Modules)
      ensures this.modules == modules && visited == {} && ordered == []
    {
      this.modules := modules;
      visited, ordered := {}, [];
    }

    /** The modules entered but not left: the call stack. */
    ghost function Active(): set<string>
      reads this
    {
      visited - Elements(ordered)
    }

    ghost predicate Valid()
      reads this
    {
      && visited <= modules.Keys
      && Elements(ordered) <= visited
      && Distinct(ordered)
      && DependenciesFirst(modules, ordered)
    }

    method ReloadModule(name: string)
      requires Valid() && name in modules
      requires forall a :: a in Active() ==> Reaches(modules, a, name)
      modifies this
      ensures Valid() && name in visited
      ensures old(ordered) <= ordered && old(visited) <= visited
      ensures Active() == old(Active())
      decreases modules.Keys - visited
    {
      if name in visited {
        return;
      }
      ReachesItself(modules, name);
      visited := visited + {name};
      ghost var active, start := Active(), ordered;
      assert active == old(Active()) + {name};
      for i := 0 to |modules[name]|
        invariant Valid() && name in visited && name !in ordered
        invariant Active() == active
        invariant start <= ordered && old(visited) + {name} <= visited
        invariant forall k :: 0 <= k < i && modules[name][k] in modules ==> modules[name][k] in visited
      {
        var dependency := modules[name][i];
        if dependency in modules {
          forall a | a in active ensures Reaches(modules, a, dependency) {
            ReachesFurther(modules, a, name, dependency);
          }
          ReloadModule(dependency);
          assert name in Active();
        }
      }
      AppendKeepsOrder(modules, ordered, name);
      ordered := ordered + [name];
      assert Elements(ordered) == Elements(ordered[..|ordered| - 1]) + {name};
    }
  }

  /** Every module once, whatever the graph; dependencies first, cycles excepted. */
  method PackageReloadOrder(names: seq<string>, modules: Modules) returns (ordered: seq<string>)
    requires Elements(names) == modules.Keys
    ensures forall name :: name in ordered <==> name in modules
    ensures forall i, j :: 0 <= i < j < |ordered| ==> ordered[i] != ordered[j]
    ensures forall i, v :: 0 <= i < |ordered| && v in modules && v in modules[ordered[i]] && v != ordered[i] ==>
      v in ordered[..i] || Reaches(modules, v, ordered[i])
  {
    var reloader := new Reloader(modules);
    for i := 0 to |names|
      invariant reloader.modules == modules && fresh(reloader)
      invariant reloader.Valid() && reloader.Active() == {}
      invariant forall k :: 0 <= k < i ==> names[k] in reloader.visited
    {
      assert names[i] in Elements(names);
      reloader.ReloadModule(names[i]);
    }
    assert reloader.visited == modules.Keys by {
      forall name | name in Elements(names) ensures name in reloader.visited {}
    }
    assert reloader.visited <= Elements(reloader.ordered) + reloader.Active();
    ordered := reloader.ordered;
    assert Elements(ordered) == modules.Keys;
    forall name | name in ordered ensures name in modules {
      assert name in Elements(ordered);
    }
    forall i, v | 0 <= i < |ordered| && v in modules && v in modules[ordered[i]] && v != ordered[i]
      ensures v in ordered[..i] || Reaches(modules, v, ordered[i])
    {
      assert Edge(modules, ordered[i], v);
    }
  }

  /** Without cycles through two modules the order is a topological one. */
  lemma AcyclicOrderIsTopological(modules: Modules, ordered: seq<string>, i: nat, v: string)
    requires DependenciesFirst(modules, ordered) && i < |ordered|
    requires forall a, b :: Reaches(modules, a, b) && Reaches(modules, b, a) ==> a == b
    requires Edge(modules, ordered[i], v) && v != ordered[i]
    ensures v in ordered[..i]
  {
    ReachesItself(modules, ordered[i]);
    ReachesFurther(modules, ordered[i], ordered[i], v);
  }
}
