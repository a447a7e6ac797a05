/** Collecting a template and the partials it includes. Main result: for every finite and possibly cyclic
    graph of references, compiling a template collects exactly the known sources that references reach from
    it and from its direct parent. */
module TemplateClosure {
  import opened GoStrings

  // Preprocessed source: its text and the name of the template it extends, "" for none
  datatype Source = Source(content: string, parent: string)

  datatype Compiled = Compiled(templates: map<string, string>, execName: string)

  // ---------- references ----------

  // `refs` is tmplRefs: the names a text includes.
  ghost predicate Edge(sources: map<string, Source>, refs: string -> seq<string>, a: string, b: string) {
    a in sources && b in sources && b in refs(sources[a].content)
  }

  ghost predicate IsPath(sources: map<string, Source>, refs: string -> seq<string>, path: seq<string>) {
    && path != [] && path[0] in sources
    && forall i :: 0 <= i < |path| - 1 ==> Edge(sources, refs, path[i], path[i + 1])
  }

  // The known source b is reached from a by following references.
  ghost predicate Reaches(sources: map<string, Source>, refs: string -> seq<string>, a: string, b: string) {
    exists path :: IsPath(sources, refs, path) && path[0] == a && path[|path| - 1] == b
  }

  // Every known reference out of these names leads into the set.
  ghost predicate LeadsInto(
    sources: map<string, Source>, refs: string -> seq<string>, names: set<string>, into: set<string>)
  {
    forall a, b :: a in names && Edge(sources, refs, a, b) ==> b in into
  }

  ghost predicate AllReached(
    sources: map<string, Source>, refs: string -> seq<string>, root: string, names: set<string>)
  {
    forall n :: n in names ==> Reaches(sources, refs, root, n)
  }

  // What was reached before from a name, and what was then reached from one of its references
  lemma ReachedMore(
    sources: map<string, Source>, refs: string -> seq<string>, a: string, b: string,
    begun: set<string>, before: set<string>, after: set<string>)
    requires a in sources && b in refs(sources[a].content)
    requires AllReached(sources, refs, a, before - begun) && AllReached(sources, refs, b, after - before)
    ensures AllReached(sources, refs, a, after - begun)
  {
    hide Reaches, Edge;
    FromReference(sources, refs, a, b);
    forall n | n in after - begun
      ensures Reaches(sources, refs, a, n)
    {
      if n in before {
        assert n in before - begun;
      } else {
        assert n in after - before;
      }
    }
  }

  lemma ReachesItself(sources: map<string, Source>, refs: string -> seq<string>, a: string)
    requires a in sources
    ensures Reaches(sources, refs, a, a)
  {
    assert IsPath(sources, refs, [a]);
    assert [a][0] == a && [a][|[a]| - 1] == a;
  }

  lemma ReachesFurther(sources: map<string, Source>, refs: string -> seq<string>, a: string, b: string, c: string)
    requires Edge(sources, refs, a, b) && Reaches(sources, refs, b, c)
    ensures Reaches(sources, refs, a, c)
  {
    var path :| IsPath(sources, refs, path) && path[0] == b && path[|path| - 1] == c;
    var longer := [a] + path;
    forall i | 0 <= i < |longer| - 1
      ensures Edge(sources, refs, longer[i], longer[i + 1])
    {
      if i > 0 {
        assert longer[i] == path[i - 1] && longer[i + 1] == path[i];
      }
    }
    assert IsPath(sources, refs, longer) && longer[0] == a && longer[|longer| - 1] == c;
  }

  lemma PathTail(sources: map<string, Source>, refs: string -> seq<string>, path: seq<string>)
    requires IsPath(sources, refs, path) && |path| > 1
    ensures IsPath(sources, refs, path[1..]) && Edge(sources, refs, path[0], path[1])
  {
    forall i | 0 <= i < |path| - 2
      ensures Edge(sources, refs, path[1..][i], path[1..][i + 1])
    {
      assert path[1..][i] == path[i + 1] && path[1..][i + 1] == path[i + 2];
      assert Edge(sources, refs, path[i + 1], path[i + 2]);
    }
  }

  // A path that starts in a set every reference stays in, stays in it.
  lemma {:induction false} PathStays(
    sources: map<string, Source>, refs: string -> seq<string>, path: seq<string>, names: set<string>)
    requires IsPath(sources, refs, path) && path[0] in names && LeadsInto(sources, refs, names, names)
    ensures path[|path| - 1] in names
    decreases |path|
  {
    if |path| > 1 {
      PathTail(sources, refs, path);
      PathStays(sources, refs, path[1..], names);
    }
  }

  lemma LeadsMore(
    sources: map<string, Source>, refs: string -> seq<string>, begun: set<string>, before: set<string>, after: set<string>)
    requires begun <= before <= after
    requires LeadsInto(sources, refs, before - begun, before) && LeadsInto(sources, refs, after - before, after)
    ensures LeadsInto(sources, refs, after - begun, after)
  {
    hide Edge;
  }

  lemma LeadsWith(
    sources: map<string, Source>, refs: string -> seq<string>, name: string, old_: set<string>, into: set<string>)
    requires name in sources && LeadsInto(sources, refs, into - (old_ + {name}), into)
    requires forall n :: n in refs(sources[name].content) && n in sources ==> n in into
    ensures LeadsInto(sources, refs, into - old_, into)
  {
    forall a, b | a in into - old_ && Edge(sources, refs, a, b)
      ensures b in into
    {
      if a != name {
        assert a in into - (old_ + {name});
      }
    }
  }

  lemma ReachedIsIn(sources: map<string, Source>, refs: string -> seq<string>, a: string, b: string, names: set<string>)
    requires a in names && LeadsInto(sources, refs, names, names) && Reaches(sources, refs, a, b)
    ensures b in names
  {
    var path :| IsPath(sources, refs, path) && path[0] == a && path[|path| - 1] == b;
    PathStays(sources, refs, path, names);
  }

  // ---------- the object ----------

  // A Go map passed by reference
  class Collection {
    var entries: map<string, string>

    constructor ()
      ensures entries == map[]
    {
      entries := map[];
    }
  }

  class Engine {
    const sources: map<string, Source>
    const refs: string -> seq<string>

    constructor (sources: map<string, Source>, refs: string -> seq<string>)
      ensures this.sources == sources && this.refs == refs
    {
      this.sources, this.refs := sources, refs;
    }

    // What is collected is known sources, each with its own text.
    ghost predicate Holds(entries: map<string, string>) {
      forall n :: n in entries ==> n in sources && entries[n] == sources[n].content
    }

    lemma HoldsMore(entries: map<string, string>, name: string)
      requires Holds(entries) && name in sources
      ensures Holds(entries[name := sources[name].content])
    {
    }

    // What a collection grew by: every reference out of it is collected, and the old entries stay.
    ghost predicate Grown(before: set<string>, after: set<string>) {
      before <= after && LeadsInto(sources, refs, after - before, after)
    }

    // The new names are reached from `name`, and every reference out of them is collected.
    method CollectTransitive(name: string, dst: Collection)
      requires Holds(dst.entries)
      modifies dst
      ensures Holds(dst.entries) && Grown(old(dst.entries).Keys, dst.entries.Keys)
      ensures name in sources ==> name in dst.entries
      ensures AllReached(sources, refs, name, dst.entries.Keys - old(dst.entries).Keys)
      decreases |sources.Keys - dst.entries.Keys|, 0
    {
      hide AllReached, LeadsInto, Holds, Edge, Grown;
      ghost var before := dst.entries.Keys;
      LeadsNowhere(before);
      GrownNothing(before);
      if name in dst.entries {
        return;
      }
      if name !in sources {
        return;
      }
      var info := sources[name];
      HoldsMore(dst.entries, name);
      dst.entries := dst.entries[name := info.content];
      Shrinks(sources.Keys, before, dst.entries.Keys, name);
      CollectReferences(name, dst);
      GrownWith(name, before, dst.entries.Keys);
      ReachedWith(name, before, dst.entries.Keys);
    }

    // The loop over the references of a template
    method CollectReferences(name: string, dst: Collection)
      requires Holds(dst.entries) && name in sources
      modifies dst
      ensures Holds(dst.entries) && Grown(old(dst.entries).Keys, dst.entries.Keys)
      ensures AllIn(refs(sources[name].content), dst.entries.Keys)
      ensures AllReached(sources, refs, name, dst.entries.Keys - old(dst.entries).Keys)
      decreases |sources.Keys - dst.entries.Keys|, 1
    {
      hide AllReached, LeadsInto, Edge, Holds, Grown, AllIn;
      ghost var begun := dst.entries.Keys;
      LeadsNowhere(begun);
      GrownNothing(begun);
      NoneIn(begun);
      var names := refs(sources[name].content);
      for i := 0 to |names|
        invariant Holds(dst.entries) && Grown(begun, dst.entries.Keys)
        invariant AllIn(names[..i], dst.entries.Keys)
        invariant AllReached(sources, refs, name, dst.entries.Keys - begun)
      {
        ghost var before := dst.entries.Keys;
        GrownFewer(begun, before);
        CollectTransitive(names[i], dst);
        GrownMore(begun, before, dst.entries.Keys);
        ReachedMore(sources, refs, name, names[i], begun, before, dst.entries.Keys);
        AllInNext(names, i, before, dst.entries.Keys);
      }
      assert names[..|names|] == names;
    }

    lemma GrownNothing(names: set<string>)
      ensures Grown(names, names)
    {
      LeadsNowhere(names);
    }

    // The names that are known sources are all collected.
    ghost predicate AllIn(names: seq<string>, collected: set<string>) {
      forall n :: n in names && n in sources ==> n in collected
    }

    lemma NoneIn(collected: set<string>)
      ensures forall names: seq<string> :: AllIn(names[..0], collected)
    {
    }

    lemma AllInNext(names: seq<string>, i: nat, before: set<string>, after: set<string>)
      requires i < |names| && before <= after && AllIn(names[..i], before) && (names[i] in sources ==> names[i] in after)
      ensures AllIn(names[..i + 1], after)
    {
      assert names[..i + 1] == names[..i] + [names[i]];
    }

    lemma GrownWith(name: string, before: set<string>, after: set<string>)
      requires name in sources && Grown(before + {name}, after)
      requires AllIn(refs(sources[name].content), after)
      ensures Grown(before, after) && name in after
    {
      LeadsWith(sources, refs, name, before, after);
    }

    lemma GrownFewer(begun: set<string>, before: set<string>)
      requires Grown(begun, before)
      ensures |sources.Keys - before| <= |sources.Keys - begun|
    {
      Fewer(sources.Keys, begun, before);
    }

    lemma GrownMore(begun: set<string>, before: set<string>, after: set<string>)
      requires Grown(begun, before) && Grown(before, after)
      ensures Grown(begun, after) && before <= after
    {
      LeadsMore(sources, refs, begun, before, after);
    }

    lemma ReachedWith(name: string, before: set<string>, after: set<string>)
      requires name in sources && AllReached(sources, refs, name, after - (before + {name}))
      ensures AllReached(sources, refs, name, after - before)
    {
      hide Reaches;
      ReachesItself(sources, refs, name);
      assert forall n :: n in after - before && n != name ==> n in after - (before + {name});
    }

    lemma LeadsNowhere(names: set<string>)
      ensures LeadsInto(sources, refs, names - names, names)
      ensures forall root :: AllReached(sources, refs, root, names - names)
    {
      assert names - names == {};
    }

    // compile: the child is marked as seen before its references are explored; its parent comes last.
    method Compile(name: string) returns (r: Option<Compiled>)
      ensures r.None? <==> name !in sources
      ensures r.Some? ==> r.value.execName == if sources[name].parent != "" then sources[name].parent else name
      ensures r.Some? ==> forall n :: n in r.value.templates <==>
        Reaches(sources, refs, name, n) || Reaches(sources, refs, r.value.execName, n)
      ensures r.Some? ==> forall n :: n in r.value.templates ==> (
        n in sources && r.value.templates[n] == sources[n].content)
    {
      hide Reaches, LeadsInto, Edge;
      if name !in sources {
        return None;
      }
      var info := sources[name];
      var collected := new Collection();
      var execName := name;
      ReachesItself(sources, refs, name);
      if info.parent != "" {
        execName := info.parent;
        collected.entries := collected.entries[name := info.content];
        assert collected.entries.Keys == {} + {name};
        CollectReferences(name, collected);
        ghost var before := collected.entries.Keys;
        LeadsWith(sources, refs, name, {}, before);
        CollectTransitive(info.parent, collected);
        assert before - {} == before;
        LeadsMore(sources, refs, {}, before, collected.entries.Keys);
      } else {
        assert collected.entries.Keys == {};
        CollectTransitive(name, collected);
        assert collected.entries.Keys - {} == collected.entries.Keys;
      }
      ghost var names := collected.entries.Keys;
      assert names - {} == names;
      ClosedIsAll(name, names);
      ClosedIsAll(execName, names);
      return Some(Compiled(collected.entries, execName));
    }

    lemma ClosedIsAll(root: string, names: set<string>)
      requires LeadsInto(sources, refs, names, names) && (root in sources ==> root in names)
      ensures forall n :: Reaches(sources, refs, root, n) ==> n in names
    {
      forall n | Reaches(sources, refs, root, n)
        ensures n in names
      {
        RootIsKnown(sources, refs, root, n);
        ReachedIsIn(sources, refs, root, n, names);
      }
    }
  }

  lemma FromReference(sources: map<string, Source>, refs: string -> seq<string>, a: string, b: string)
    requires a in sources && b in refs(sources[a].content)
    ensures forall n :: Reaches(sources, refs, b, n) ==> Reaches(sources, refs, a, n)
  {
    forall n | Reaches(sources, refs, b, n)
      ensures Reaches(sources, refs, a, n)
    {
      RootIsKnown(sources, refs, b, n);
      ReachesFurther(sources, refs, a, b, n);
    }
  }

  lemma RootIsKnown(sources: map<string, Source>, refs: string -> seq<string>, a: string, b: string)
    requires Reaches(sources, refs, a, b)
    ensures a in sources
  {
  }

  lemma Shrinks(all: set<string>, before: set<string>, after: set<string>, name: string)
    requires name in all && name !in before && after == before + {name}
    ensures |all - after| < |all - before|
  {
    assert all - before == (all - after) + {name};
  }

  lemma Fewer(all: set<string>, before: set<string>, after: set<string>)
    requires before <= after
    ensures |all - after| <= |all - before|
  {
    assert all - before == (all - after) + ((all - before) * after);
  }

  // A template that includes its parent's own partials, and a cycle, are no obstacle: on any graph the sources
  // collected for a template contain those collected for every template it reaches.
  lemma ReachesThrough(sources: map<string, Source>, refs: string -> seq<string>, a: string, b: string, c: string)
    requires Reaches(sources, refs, a, b) && Reaches(sources, refs, b, c)
    ensures Reaches(sources, refs, a, c)
  {
    var path :| IsPath(sources, refs, path) && path[0] == a && path[|path| - 1] == b;
    PathThen(sources, refs, path, c);
  }

  lemma {:induction false} PathThen(sources: map<string, Source>, refs: string -> seq<string>, path: seq<string>, c: string)
    requires IsPath(sources, refs, path) && Reaches(sources, refs, path[|path| - 1], c)
    ensures Reaches(sources, refs, path[0], c)
    decreases |path|
  {
    if |path| > 1 {
      PathTail(sources, refs, path);
      PathThen(sources, refs, path[1..], c);
      ReachesFurther(sources, refs, path[0], path[1], c);
    }
  }
}
