/** Child key de-duplication: the traversal of a nested children value visits
    leaves in order, each with a generated name; the first non-null child per
    name is kept and later ones with the same name are dropped. */
module ChildReconciler {
  import opened Values

  /** One leaf the traversal visits: the child (`Null` for a null, boolean or
      absent leaf) and the name the traversal generated for it. */
  datatype Entry = Entry(child: Value, name: string)

  /** The names of a sequence of entries. */
  function Names(entries: seq<Entry>): set<string>
  {
    if entries == [] then {} else Names(entries[..|entries| - 1]) + {entries[|entries| - 1].name}
  }

  /** The children of a sequence of entries, in order. */
  function ChildrenOf(entries: seq<Entry>): (cs: seq<Value>)
    ensures |cs| == |entries|
    ensures forall i :: 0 <= i < |entries| ==> cs[i] == entries[i].child
  {
    seq(|entries|, i requires 0 <= i < |entries| => entries[i].child)
  }

  /** The entries `instantiateChild` pushes when called on `entries` in order,
      starting from an empty `seenKeys`. */
  function Kept(entries: seq<Entry>): (kept: seq<Entry>)
    ensures |kept| <= |entries|
  {
    if entries == [] then []
    else
      var prefix := Kept(entries[..|entries| - 1]);
      var e := entries[|entries| - 1];
      if e.child != Null && e.name !in Names(prefix) then prefix + [e] else prefix
  }

  /** Entry `i` is the first non-null child with its name. */
  predicate IsFirstOccurrence(entries: seq<Entry>, i: nat)
    requires i < |entries|
  {
    && entries[i].child != Null
    && forall j :: 0 <= j < i && entries[j].child != Null ==> entries[j].name != entries[i].name
  }

  /** Reference definition: the first occurrences among the first `n` entries,
      picked out by position, in traversal order. */
  function FirstOccurrences(entries: seq<Entry>, n: nat): seq<Entry>
    requires n <= |entries|
  {
    if n == 0 then []
    else FirstOccurrences(entries, n - 1) + (if IsFirstOccurrence(entries, n - 1) then [entries[n - 1]] else [])
  }

  lemma {:induction false} NamesMember(entries: seq<Entry>, x: string)
    ensures x in Names(entries) <==> exists i :: 0 <= i < |entries| && entries[i].name == x
    decreases |entries|
  {
    if entries != [] {
      var init := entries[..|entries| - 1];
      NamesMember(init, x);
      if x in Names(init) {
        var i :| 0 <= i < |init| && init[i].name == x;
        assert entries[i].name == x;
      }
      if exists i :: 0 <= i < |entries| && entries[i].name == x {
        var i :| 0 <= i < |entries| && entries[i].name == x;
        if i < |init| {
          assert init[i].name == x;
        }
      }
    }
  }

  /** `seenKeys` after the traversal holds exactly the names of the non-null
      children visited: a null child never marks its name as seen. */
  lemma {:induction false} SeenNamesAreNonNullNames(entries: seq<Entry>, x: string)
    ensures x in Names(Kept(entries)) <==>
      exists j :: 0 <= j < |entries| && entries[j].child != Null && entries[j].name == x
    decreases |entries|
  {
    if entries != [] {
      var n := |entries|;
      var init := entries[..n - 1];
      var e := entries[n - 1];
      var prefix := Kept(init);
      SeenNamesAreNonNullNames(init, x);
      assert forall j :: 0 <= j < |init| ==> init[j] == entries[j];
      if e.child != Null && e.name !in Names(prefix) {
        assert (prefix + [e])[..|prefix|] == prefix;
        assert Names(Kept(entries)) == Names(prefix) + {e.name};
      } else if e.child != Null && x == e.name {
        var j :| 0 <= j < |init| && init[j].child != Null && init[j].name == x;
        assert entries[j].child != Null && entries[j].name == x;
      }
    }
  }

  /** First wins: the kept children are exactly the first non-null occurrence
      of each name, in traversal order. */
  lemma {:induction false} KeptIsFirstOccurrences(entries: seq<Entry>)
    ensures Kept(entries) == FirstOccurrences(entries, |entries|)
    decreases |entries|
  {
    if entries != [] {
      var n := |entries|;
      var init := entries[..n - 1];
      var e := entries[n - 1];
      KeptIsFirstOccurrences(init);
      FirstOccurrencesPrefix(entries, init, n - 1);
      LastIsFirstOccurrence(entries);
    }
  }

  /** The last entry is a first occurrence exactly when `instantiateChild`
      pushes it after the entries before it. */
  lemma LastIsFirstOccurrence(entries: seq<Entry>)
    requires entries != []
    ensures var init := entries[..|entries| - 1];
            var e := entries[|entries| - 1];
      IsFirstOccurrence(entries, |entries| - 1) <==> e.child != Null && e.name !in Names(Kept(init))
  {
    var init := entries[..|entries| - 1];
    SeenNamesAreNonNullNames(init, entries[|entries| - 1].name);
    assert forall j :: 0 <= j < |init| ==> init[j] == entries[j];
  }

  /** The first occurrences among the first `n` entries do not depend on what
      follows them. */
  lemma {:induction false} FirstOccurrencesPrefix(entries: seq<Entry>, prefix: seq<Entry>, n: nat)
    requires n <= |prefix| <= |entries| && prefix == entries[..|prefix|]
    ensures FirstOccurrences(entries, n) == FirstOccurrences(prefix, n)
    decreases n
  {
    if n > 0 {
      FirstOccurrencesPrefix(entries, prefix, n - 1);
      assert IsFirstOccurrence(entries, n - 1) == IsFirstOccurrence(prefix, n - 1) by {
        assert forall j :: 0 <= j < n ==> entries[j] == prefix[j];
      }
    }
  }

  /** No two kept children share a name. */
  lemma {:induction false} KeptNamesDistinct(entries: seq<Entry>)
    ensures forall i, j :: 0 <= i < j < |Kept(entries)| ==> Kept(entries)[i].name != Kept(entries)[j].name
    decreases |entries|
  {
    if entries != [] {
      var init := entries[..|entries| - 1];
      var e := entries[|entries| - 1];
      var prefix := Kept(init);
      KeptNamesDistinct(init);
      if e.child != Null && e.name !in Names(prefix) {
        forall i | 0 <= i < |prefix|
          ensures prefix[i].name != e.name
        {
          NamesMember(prefix, e.name);
        }
      }
    }
  }

  /** Every kept child is non-null. */
  lemma {:induction false} KeptNonNull(entries: seq<Entry>)
    ensures forall i :: 0 <= i < |Kept(entries)| ==> Kept(entries)[i].child != Null
    decreases |entries|
  {
    if entries != [] {
      KeptNonNull(entries[..|entries| - 1]);
    }
  }

  /** The shared traversal context `{seenKeys, children}`. The ghost `kept`
      records the entries pushed so far. */
  class TraverseContext {
    var seenKeys: set<string>
    var children: seq<Value>
    ghost var kept: seq<Entry>

    ghost predicate Valid()
      reads this
    {
      seenKeys == Names(kept) && children == ChildrenOf(kept)
    }

    constructor ()
      ensures Valid() && kept == [] && seenKeys == {} && children == []
    {
      seenKeys := {};
      children := [];
      kept := [];
    }

    /** `instantiateChild`: push the child and mark its name as seen when the
        child is non-null and the name is new; a repeated name only warns. */
    method InstantiateChild(child: Value, name: string)
      requires Valid()
      modifies this
      ensures Valid()
      ensures kept == if child != Null && name !in old(seenKeys)
        then old(kept) + [Entry(child, name)] else old(kept)
      ensures old(seenKeys) <= seenKeys
      ensures old(children) <= children
    {
      var keyUnique := name !in seenKeys;
      if child != Null && keyUnique {
        ghost var e := Entry(child, name);
        assert (kept + [e])[..|kept|] == kept;
        assert ChildrenOf(kept + [e]) == ChildrenOf(kept) + [child];
        seenKeys := seenKeys + {name};
        children := children + [child];
        kept := kept + [e];
      }
    }
  }

  /** `instantiateChildren`: `null` for a null children value; otherwise a fresh
      list built by visiting the traversal's entries (`traverseAllChildren`,
      given as `traverse`) with an empty `seenKeys`. */
  method InstantiateChildren(nested: Value, traverse: Value -> seq<Entry>) returns (r: Option<seq<Value>>)
    ensures nested == Null ==> r == None
    ensures nested != Null ==> r == Some(ChildrenOf(Kept(traverse(nested))))
  {
    if nested == Null {
      return None;
    }
    var entries := traverse(nested);
    var context := new TraverseContext();
    for i := 0 to |entries|
      invariant context.Valid()
      invariant context.kept == Kept(entries[..i])
    {
      assert entries[..i + 1][..i] == entries[..i];
      context.InstantiateChild(entries[i].child, entries[i].name);
      SeenNamesAreNonNullNames(entries[..i], entries[i].name);
    }
    assert entries[..|entries|] == entries;
    return Some(context.children);
  }
}
