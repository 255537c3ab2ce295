/** The buffered driver: render an element by mounting it at the root with a
    pooled transaction, drain the mount image into one string, add the checksum
    unless the render is static, and give the transaction back on every path. */
module Render {
  import opened Strings
  import opened Values

  /** The root's mount image, as the driver sees it: the mount threw; it gave
      nothing (a falsy image); a string; or an iterator, known by the values it
      yields before it reports `done`, or before it throws `failure`. */
  datatype RootImage =
    | Thrown(error: Error)
    | Nothing
    | Plain(text: string)
    | Iterator(values: seq<string>, failure: Option<Error>)

  /** Reference definition of the drained markup: all the iterator's values
      concatenated in order, a string as it is, and `''` for nothing. */
  function Drained(image: RootImage): Result<string>
  {
    match image
    case Thrown(e) => Err(e)
    case Nothing => Ok("")
    case Plain(s) => Ok(s)
    case Iterator(values, failure) => if failure.Some? then Err(failure.value) else Ok(Join(values))
  }

  /** What a render returns for a root image. */
  function Rendered(image: RootImage, makeStaticMarkup: bool, addChecksum: string -> string): Result<string>
  {
    match Drained(image)
    case Err(e) => Err(e)
    case Ok(markup) => Ok(if makeStaticMarkup then markup else addChecksum(markup))
  }

  /** A static render is the drained markup itself; only a non-static render
      goes through the checksum. */
  lemma StaticRenderIsDrained(image: RootImage, addChecksum: string -> string)
    ensures Rendered(image, true, addChecksum) == Drained(image)
    ensures Drained(image).Ok? ==> Rendered(image, false, addChecksum) == Ok(addChecksum(Drained(image).value))
  {
  }

  /** A render transaction handed out by the pool. */
  class PooledTransaction {
    var renderToStaticMarkup: bool

    constructor (renderToStaticMarkup: bool)
      ensures this.renderToStaticMarkup == renderToStaticMarkup
    {
      this.renderToStaticMarkup := renderToStaticMarkup;
    }
  }

  /** The transaction pool, known by how many of its transactions are out. */
  class Pool {
    var outstanding: nat

    constructor ()
      ensures outstanding == 0
    {
      outstanding := 0;
    }

    /** `getPooled(renderToStaticMarkup)` */
    method GetPooled(renderToStaticMarkup: bool) returns (t: PooledTransaction)
      modifies this
      ensures outstanding == old(outstanding) + 1
      ensures t.renderToStaticMarkup == renderToStaticMarkup
    {
      t := new PooledTransaction(renderToStaticMarkup);
      outstanding := outstanding + 1;
    }

    /** `release(transaction)` */
    method Release(t: PooledTransaction)
      requires outstanding > 0
      modifies this
      ensures outstanding == old(outstanding) - 1
    {
      outstanding := outstanding - 1;
    }
  }

  /** `renderToStringImpl`. `mountRoot` is `instantiateReactComponent` followed
      by `ReactReconciler.mountComponent` at the root, with the transaction's
      static flag; `addChecksum` is `addChecksumToMarkup`. */
  method RenderToStringImpl(element: Value, makeStaticMarkup: bool, pool: Pool,
                            mountRoot: (Value, bool) -> RootImage, addChecksum: string -> string)
    returns (r: Result<string>)
    modifies pool
    ensures pool.outstanding == old(pool.outstanding)
    ensures r == Rendered(mountRoot(element, makeStaticMarkup), makeStaticMarkup, addChecksum)
  {
    var transaction := pool.GetPooled(makeStaticMarkup);
    var mountImage := mountRoot(element, transaction.renderToStaticMarkup);
    if mountImage.Thrown? {
      pool.Release(transaction);
      return Err(mountImage.error);
    }
    var markup := "";
    if mountImage.Iterator? {
      // the i-th `next()` on the root iterator gives `values[i]`
      var values := mountImage.values;
      var i := 0;
      while true
        invariant 0 <= i <= |values|
        invariant markup == Join(values[..i])
        decreases |values| - i
      {
        if i == |values| {
          if mountImage.failure.Some? {
            pool.Release(transaction);
            return Err(mountImage.failure.value);
          }
          break;
        }
        assert values[..i + 1][..i] == values[..i];
        markup := markup + values[i];
        i := i + 1;
      }
      assert values[..i] == values;
    } else if mountImage.Plain? {
      markup := mountImage.text;
    }
    if !makeStaticMarkup {
      markup := addChecksum(markup);
    }
    pool.Release(transaction);
    return Ok(markup);
  }

  /** `renderToString`: an invalid element is rejected before any transaction
      is taken; a valid one is rendered with the checksum. */
  method RenderToString(element: Value, pool: Pool, mountRoot: (Value, bool) -> RootImage,
                        addChecksum: string -> string)
    returns (r: Result<string>)
    modifies pool
    ensures pool.outstanding == old(pool.outstanding)
    ensures !IsValidElement(element) ==> r == Err(InvalidElement)
    ensures IsValidElement(element) ==> r == Rendered(mountRoot(element, false), false, addChecksum)
  {
    if !IsValidElement(element) {
      return Err(InvalidElement);
    }
    r := RenderToStringImpl(element, false, pool, mountRoot, addChecksum);
  }

  /** `renderToStaticMarkup`: the same check, then a static render. */
  method RenderToStaticMarkup(element: Value, pool: Pool, mountRoot: (Value, bool) -> RootImage,
                              addChecksum: string -> string)
    returns (r: Result<string>)
    modifies pool
    ensures pool.outstanding == old(pool.outstanding)
    ensures !IsValidElement(element) ==> r == Err(InvalidElement)
    ensures IsValidElement(element) ==> r == Drained(mountRoot(element, true))
  {
    if !IsValidElement(element) {
      return Err(InvalidElement);
    }
    r := RenderToStringImpl(element, true, pool, mountRoot, addChecksum);
    StaticRenderIsDrained(mountRoot(element, true), addChecksum);
  }
}
