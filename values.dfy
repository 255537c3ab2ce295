/** The values the renderer inspects: JavaScript values reduced to the
    distinctions the code draws, elements with their props, the errors the code
    raises, and the container record that carries the id counter. */
module Values {
  import opened Strings

  /** A JavaScript value. `Null` stands for both `null` and `undefined`, which
      the renderer only ever tests with `== null`. Numbers are integers. */
  datatype Value =
    | Null
    | Bool(b: bool)
    | Num(n: int)
    | Str(s: string)
    | Function
    | Obj(fields: map<string, Value>)
    | Elem(element: Element)
    | Items(items: seq<Value>)

  /** One own enumerable property of a props object, in `for ... in` order. */
  datatype Prop = Prop(key: string, value: Value)

  /** A host element: its `type` as written and its props. */
  datatype Element = Element(elementType: string, props: seq<Prop>)

  /** `props[key]`: the value of the first prop with that key, `Null` when absent. */
  function Get(props: seq<Prop>, key: string): (v: Value)
    ensures v != Null ==> exists i :: 0 <= i < |props| && props[i] == Prop(key, v)
    ensures (forall i :: 0 <= i < |props| ==> props[i].key != key) ==> v == Null
  {
    if props == [] then Null
    else if props[0].key == key then props[0].value
    else Get(props[1..], key)
  }

  /** A present key reads the value of the first prop that carries it. */
  lemma {:induction false} GetFindsFirst(props: seq<Prop>, key: string, i: nat)
    requires i < |props| && props[i].key == key
    requires forall j :: 0 <= j < i ==> props[j].key != key
    ensures Get(props, key) == props[i].value
  {
    if i > 0 {
      GetFindsFirst(props[1..], key, i - 1);
    }
  }

  /** `typeof v === 'object'` for a non-null value. */
  predicate IsObject(v: Value)
  {
    v.Obj? || v.Elem? || v.Items?
  }

  /** `'' + v`: a string as it is, a number as its decimal numeral, anything
      else through `String(v)`, which is given as `stringify`. */
  function StringOf(stringify: Value -> string, v: Value): (s: string)
    ensures v.Str? ==> s == v.s
    ensures v.Num? ==> |s| > 0 && (v.n < 0 <==> s[0] == '-')
  {
    match v
    case Str(s) => s
    case Num(n) => IntToString(n)
    case _ => stringify(v)
  }

  /** The value tests false in a condition (`if (v)`): null, `false`, `0` or
      the empty string. */
  predicate IsFalsy(v: Value)
    ensures v.Obj? || v.Elem? || v.Function? || v.Items? ==> !IsFalsy(v)
    ensures v.Str? ==> (IsFalsy(v) <==> v.s == "")
    ensures v.Num? ==> (IsFalsy(v) <==> v.n == 0)
  {
    v == Null || v == Bool(false) || v == Num(0) || v == Str("")
  }

  /** `React.isValidElement(v)` */
  predicate IsValidElement(v: Value)
  {
    v.Elem?
  }

  /** The errors the core raises; each is thrown in the source and ends the render. */
  datatype Error =
    | InvalidElement
    | InvalidTag(tag: string)
    | VoidElementWithContent(tag: string)
    | ChildrenWithInnerHTML
    | MalformedInnerHTML
    | StyleNotObject
    | UnsupportedOperation

  datatype Result<T> = Ok(value: T) | Err(error: Error)

  datatype Outcome = Pass | Fail(error: Error)

  /** The markup namespaces a host tag can be created in. */
  datatype Namespace = Html | Svg | MathML

  /** The per-render container record (`hostContainerInfo`): the id counter
      that every host, text and empty mount draws from, and the tag and
      namespace of the container the render is attached to, if any. */
  class ContainerInfo {
    var idCounter: nat
    const tag: string
    const namespaceURI: Option<Namespace>

    constructor (idCounter: nat, tag: string, namespaceURI: Option<Namespace>)
      ensures this.idCounter == idCounter && this.tag == tag && this.namespaceURI == namespaceURI
    {
      this.idCounter := idCounter;
      this.tag := tag;
      this.namespaceURI := namespaceURI;
    }

    /** `hostContainerInfo._idCounter++`: returns the current id and advances
        the counter by exactly one. */
    method TakeId() returns (id: nat)
      modifies this
      ensures id == old(idCounter) && idCounter == old(idCounter) + 1
    {
      id := idCounter;
      idCounter := idCounter + 1;
    }
  }

  datatype Option<T> = None | Some(value: T)
}
