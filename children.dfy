/** Mounting a host node's children: a lazy iterator that mounts each
    de-duplicated child only when the consumer gets to it, and flattens each
    child's mount image (a string, or the whole of a nested iterator) into one
    ordered sequence of values. */
module Children {
  import opened Values
  import opened Protocol
  import ChildReconciler

  /** The images the children give when mounted one after the other. */
  function MountAll(mount: Value -> Image, children: seq<Value>): (images: seq<Image>)
    ensures |images| == |children|
  {
    seq(|children|, i requires 0 <= i < |children| => mount(children[i]))
  }

  /** Mounting a suffix of the children is mounting its first child, then the rest. */
  lemma MountAllUnfold(mount: Value -> Image, children: seq<Value>, i: nat)
    requires i < |children|
    ensures MountAll(mount, children[i..]) == [mount(children[i])] + MountAll(mount, children[i + 1..])
  {
    assert MountAll(mount, children[i..])[1..] == MountAll(mount, children[i + 1..]);
  }

  /** The iterator `mountChildren` returns for a list of children. `mount` is
      `instantiateReactComponent` followed by `ReactReconciler.mountComponent`
      with the iterator's transaction, context and parent instance; `current`
      holds the values a nested lazy child image has yet to yield; the ghost
      `mounted` records every child mounted so far, in order. */
  class ChildrenIterator {
    const children: seq<Value>
    const mount: Value -> Image
    const length: nat
    var index: nat
    var current: Option<seq<string>>
    ghost var mounted: seq<Value>

    ghost predicate Valid()
      reads this
    {
      length == |children| && index <= length && mounted == children[..index]
    }

    /** The values this iterator has yet to yield, in order. */
    ghost function Remaining(): seq<string>
      reads this
      requires Valid()
    {
      (if current.Some? then current.value else []) + Pending(index)
    }

    /** The values the children from `i` on give when mounted and pulled. */
    ghost function Pending(i: nat): seq<string>
      requires i <= |children|
    {
      Flatten(MountAll(mount, children[i..]))
    }

    lemma PendingUnfold(i: nat)
      requires i < |children|
      ensures Pending(i) == ValuesOf(mount(children[i])) + Pending(i + 1)
    {
      var later := MountAll(mount, children[i + 1..]);
      MountAllUnfold(mount, children, i);
      assert ([mount(children[i])] + later)[0] == mount(children[i]);
      assert ([mount(children[i])] + later)[1..] == later;
    }

    lemma PendingEnd()
      ensures Pending(|children|) == []
    {
      assert children[|children|..] == [];
    }

    constructor (children: seq<Value>, mount: Value -> Image)
      ensures Valid()
      ensures this.children == children && this.mount == mount
      ensures index == 0 && current == None && mounted == []
      ensures Remaining() == Flatten(MountAll(mount, children))
    {
      this.children := children;
      this.mount := mount;
      this.length := |children|;
      this.index := 0;
      this.current := None;
      this.mounted := [];
      assert children[0..] == children;
    }

    /** `next()`: drain the nested child image first; once it is done, go on
        to the next child. */
    method Next() returns (r: Step)
      requires Valid()
      modifies this
      ensures Valid()
      ensures Pulled(old(Remaining()), r, Remaining())
      ensures r == Done ==> index == length && current == None
      ensures old(index) <= index
      ensures old(current).Some? && old(current).value != [] ==> index == old(index)
      decreases length - index, 1
    {
      if current.Some? {
        var rest := current.value;
        if rest != [] {
          current := Some(rest[1..]);
          return Yield(rest[0]);
        }
        current := None;
      }
      r := NextChild();
    }

    /** The rest of `next()` once no nested image is pending: mount the next
        child, yield a string image as one value and re-enter `next()` for an
        iterator image; after the last child, report `done`. */
    method NextChild() returns (r: Step)
      requires Valid() && current == None
      modifies this
      ensures Valid()
      ensures Pulled(old(Remaining()), r, Remaining())
      ensures r == Done ==> index == length && current == None
      ensures old(index) <= index
      decreases length - index, 0
    {
      if index < length {
        var image := mount(children[index]);
        PendingUnfold(index);
        ghost var later := Pending(index + 1);
        assert old(Remaining()) == ValuesOf(image) + later;
        assert children[..index + 1] == children[..index] + [children[index]];
        mounted := mounted + [children[index]];
        index := index + 1;
        if image.Lazy? {
          current := Some(image.values);
          assert Remaining() == old(Remaining());
          r := Next();
          return;
        }
        assert Remaining() == later;
        return Yield(image.text);
      }
      PendingEnd();
      return Done;
    }
  }

  /** What `mountChildren` returns: a single element's own mount image, or an
      iterator over the de-duplicated children. */
  datatype Mounted = Single(image: Image) | Multiple(it: ChildrenIterator)

  /** `mountChildren`: a single valid element is mounted at once and its image
      returned as it is; any other children value is de-duplicated and wrapped,
      unmounted, in a `ChildrenIterator`. `traverse` is `traverseAllChildren`. */
  method MountChildren(nested: Value, traverse: Value -> seq<ChildReconciler.Entry>, mount: Value -> Image)
    returns (m: Mounted)
    requires nested != Null
    ensures IsValidElement(nested) ==> m == Single(mount(nested))
    ensures !IsValidElement(nested) ==> m.Multiple? && fresh(m.it) && m.it.Valid()
    ensures !IsValidElement(nested) ==>
      && m.it.mount == mount
      && m.it.children == ChildReconciler.ChildrenOf(ChildReconciler.Kept(traverse(nested)))
      && m.it.Remaining() == Flatten(MountAll(mount, m.it.children))
      && m.it.mounted == []
  {
    if IsValidElement(nested) {
      return Single(mount(nested));
    }
    var children := ChildReconciler.InstantiateChildren(nested, traverse);
    var it := new ChildrenIterator(children.value, mount);
    return Multiple(it);
  }
}
