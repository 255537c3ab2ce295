/** The host component (`ReactDOMServerComponent`): it mounts one host element
    into its open tag, its content and its close tag, and returns the whole
    markup as a string, or, when the children are mounted lazily, an iterator
    that yields the open tag with the first non-empty piece of content, then
    the remaining content, then the close tag. */
module Generic {
  import opened Strings
  import opened Values
  import opened Protocol
  import opened HostTags
  import ChildReconciler
  import Children

  /** The code from outside the core that a host mount calls, each taken as an
      uninterpreted function of its arguments. */
  datatype Collaborators = Collaborators(
    // `registrationNameModules.hasOwnProperty(key)`: the key names an event handler
    isEventName: string -> bool,
    // `DOMPropertyOperations.createMarkupForProperty`
    propertyMarkup: (string, Value) -> Option<string>,
    // `DOMPropertyOperations.createMarkupForCustomAttribute`
    customAttributeMarkup: (string, Value) -> Option<string>,
    // `CSSPropertyOperations.createMarkupForStyles`
    styleMarkup: Value -> Value,
    // `DOMPropertyOperations.createMarkupForRoot()`
    rootMarker: string,
    // `DOMPropertyOperations.createMarkupForID(id)`
    idMarker: nat -> string,
    // `escapeTextContentForBrowser`
    escape: string -> string,
    // `String(v)` for a value that is neither a string nor a number
    stringify: Value -> string,
    // the `getHostProps` of the input, option, select and textarea wrappers
    hostProps: (string, seq<Prop>) -> seq<Prop>,
    // `traverseAllChildren`
    traverse: Value -> seq<ChildReconciler.Entry>,
    // `instantiateReactComponent` then `ReactReconciler.mountComponent` of a child
    mount: Value -> Image)

  /** The tags whose props go through a form-control wrapper first. */
  const WrapperTags: set<string> := {"input", "option", "select", "textarea"}

  /** The props a host tag is rendered from. */
  function HostProps(c: Collaborators, tag: string, props: seq<Prop>): (hostProps: seq<Prop>)
    ensures tag !in WrapperTags ==> hostProps == props
  {
    if tag in WrapperTags then c.hostProps(tag, props) else props
  }

  // ---------------------------------------------------------------- open tag

  /** The attribute one prop contributes to the open tag, if any. `custom` is
      whether the tag is a custom element. */
  function AttributeMarkup(c: Collaborators, custom: bool, p: Prop): (m: Option<string>)
    ensures m.Some? ==> p.value != Null && !c.isEventName(p.key) && m.value != ""
    ensures m.Some? && custom ==> p.key !in ReservedProps
  {
    if p.value == Null || c.isEventName(p.key) then None
    else
      var value := if p.key == "style" then c.styleMarkup(p.value) else p.value;
      var markup :=
        if custom then (if p.key in ReservedProps then None else c.customAttributeMarkup(p.key, value))
        else c.propertyMarkup(p.key, value);
      if markup.Some? && markup.value != "" then markup else None
  }

  /** One turn of `_createOpenTagMarkup`'s loop over the props: skip a null
      value or an event handler, format a style object, and ask the custom or
      the standard formatter for the attribute; an empty markup adds nothing. */
  method PropAttribute(c: Collaborators, custom: bool, p: Prop) returns (markup: Option<string>)
    ensures markup == AttributeMarkup(c, custom, p)
  {
    var propKey := p.key;
    var propValue := p.value;
    if propValue == Null || c.isEventName(propKey) {
      return None;
    }
    if propKey == "style" {
      propValue := c.styleMarkup(propValue);
    }
    markup := None;
    if custom {
      if propKey !in ReservedProps {
        markup := c.customAttributeMarkup(propKey, propValue);
      }
    } else {
      markup := c.propertyMarkup(propKey, propValue);
    }
    if markup.Some? && markup.value == "" {
      markup := None;
    }
  }

  /** The loop of `_createOpenTagMarkup` over the props: each contributing
      prop appends a space and its attribute, in prop order. */
  method RenderAttributes(c: Collaborators, custom: bool, props: seq<Prop>) returns (attributes: string)
    ensures attributes == Attributes(c, custom, props)
  {
    attributes := "";
    for i := 0 to |props|
      invariant attributes == Attributes(c, custom, props[..i])
    {
      AttributesSnoc(c, custom, props, i);
      var markup := PropAttribute(c, custom, props[i]);
      if markup.Some? {
        attributes := attributes + " " + markup.value;
      }
    }
    assert props[..|props|] == props;
  }

  function Spaced(m: Option<string>): string
  {
    if m.Some? then " " + m.value else ""
  }

  /** The text each prop contributes to the open tag, in prop order. */
  function AttributePieces(c: Collaborators, custom: bool, props: seq<Prop>): (pieces: seq<string>)
    ensures |pieces| == |props|
  {
    seq(|props|, i requires 0 <= i < |props| => Spaced(AttributeMarkup(c, custom, props[i])))
  }

  /** The attributes of the open tag, each preceded by a space, in prop order. */
  function Attributes(c: Collaborators, custom: bool, props: seq<Prop>): string
  {
    Join(AttributePieces(c, custom, props))
  }

  /** The ID markers a non-static render appends to the open tag: the root
      marker on a tag without a host parent, then the tag's own id. */
  function Markers(c: Collaborators, staticMarkup: bool, isRoot: bool, domID: nat): string
  {
    if staticMarkup then ""
    else (if isRoot then " " + c.rootMarker else "") + " " + c.idMarker(domID)
  }

  /** The open tag, without its closing `>`. */
  function OpenTagMarkup(c: Collaborators, elementType: string, tag: string, props: seq<Prop>,
                         staticMarkup: bool, isRoot: bool, domID: nat): string
  {
    "<" + elementType + Attributes(c, IsCustomComponent(tag, props), props) + Markers(c, staticMarkup, isRoot, domID)
  }

  /** The props that contribute an attribute, in order. */
  function Contributing(c: Collaborators, custom: bool, props: seq<Prop>): (kept: seq<Prop>)
    ensures forall i :: 0 <= i < |kept| ==> AttributeMarkup(c, custom, kept[i]).Some?
  {
    if props == [] then []
    else
      var last := props[|props| - 1];
      Contributing(c, custom, props[..|props| - 1]) + (if AttributeMarkup(c, custom, last).Some? then [last] else [])
  }

  /** Attributes are rendered prop by prop: the markup of two runs of props is
      the markup of the first followed by that of the second. */
  lemma AttributesAppend(c: Collaborators, custom: bool, a: seq<Prop>, b: seq<Prop>)
    ensures Attributes(c, custom, a + b) == Attributes(c, custom, a) + Attributes(c, custom, b)
  {
    assert AttributePieces(c, custom, a + b) == AttributePieces(c, custom, a) + AttributePieces(c, custom, b);
    JoinAppend(AttributePieces(c, custom, a), AttributePieces(c, custom, b));
  }

  /** Adding one more prop appends its attribute, if any. */
  lemma AttributesSnoc(c: Collaborators, custom: bool, props: seq<Prop>, i: nat)
    requires i < |props|
    ensures Attributes(c, custom, props[..i + 1])
         == Attributes(c, custom, props[..i]) + Spaced(AttributeMarkup(c, custom, props[i]))
  {
    var pieces := AttributePieces(c, custom, props[..i + 1]);
    assert pieces[..i] == AttributePieces(c, custom, props[..i]);
  }

  /** Null props, event handlers, reserved props of custom elements and props
      whose markup is empty leave no trace: the open tag's attributes are those
      of the contributing props alone. */
  lemma {:induction false} AttributesOfContributing(c: Collaborators, custom: bool, props: seq<Prop>)
    ensures Attributes(c, custom, props) == Attributes(c, custom, Contributing(c, custom, props))
    decreases |props|
  {
    if props != [] {
      var init := props[..|props| - 1];
      var last := props[|props| - 1];
      AttributesOfContributing(c, custom, init);
      var kept := Contributing(c, custom, init);
      AttributesSnoc(c, custom, props, |props| - 1);
      assert props[..|props| - 1 + 1] == props;
      var piece := Spaced(AttributeMarkup(c, custom, last));
      assert Attributes(c, custom, props) == Attributes(c, custom, kept) + piece;
      if AttributeMarkup(c, custom, last).Some? {
        assert Contributing(c, custom, props) == kept + [last];
        AttributesSnoc(c, custom, kept + [last], |kept|);
        assert (kept + [last])[..|kept| + 1] == kept + [last];
        assert (kept + [last])[..|kept|] == kept;
      } else {
        assert piece == "";
        assert Contributing(c, custom, props) == kept;
      }
    }
  }

  /** The static open tag is the full open tag with its ID markers cut off. */
  lemma StaticOpenTagIsPrefix(c: Collaborators, elementType: string, tag: string, props: seq<Prop>,
                              isRoot: bool, domID: nat)
    ensures OpenTagMarkup(c, elementType, tag, props, true, isRoot, domID)
         == "<" + elementType + Attributes(c, IsCustomComponent(tag, props), props)
    ensures OpenTagMarkup(c, elementType, tag, props, false, isRoot, domID)
         == OpenTagMarkup(c, elementType, tag, props, true, isRoot, domID)
            + (if isRoot then " " + c.rootMarker else "") + " " + c.idMarker(domID)
  {
  }

  // ----------------------------------------------------------------- content

  /** The iterator a host tag's content is pulled from: the children iterator,
      or the iterator a single child's mount returned, known by its values. */
  datatype Body = Nested(it: Children.ChildrenIterator) | Foreign(values: seq<string>)

  function BodyObjects(b: Body): set<object>
  {
    if b.Nested? then {b.it} else {}
  }

  ghost predicate BodyValid(b: Body)
    reads BodyObjects(b)
  {
    b.Nested? ==> b.it.Valid()
  }

  /** The values the body has yet to yield. */
  ghost function BodyValues(b: Body): seq<string>
    reads BodyObjects(b)
    requires BodyValid(b)
  {
    if b.Nested? then b.it.Remaining() else b.values
  }

  /** `body.next()`. */
  method PullBody(b: Body) returns (step: Step, next: Body)
    requires BodyValid(b)
    modifies BodyObjects(b)
    ensures BodyObjects(next) == BodyObjects(b) && BodyValid(next)
    ensures Pulled(old(BodyValues(b)), step, BodyValues(next))
  {
    match b
    case Nested(it) =>
      step := it.Next();
      next := b;
    case Foreign(values) =>
      if values == [] {
        step, next := Done, b;
      } else {
        step, next := Yield(values[0]), Foreign(values[1..]);
      }
  }

  /** What `_createContentMarkup` returns: nothing, a string, or an iterator. */
  datatype Content = NoContent | Text(text: string) | Deferred(body: Body)

  function ContentObjects(content: Content): set<object>
  {
    if content.Deferred? then BodyObjects(content.body) else {}
  }

  ghost predicate ContentValid(content: Content)
    reads ContentObjects(content)
  {
    content.Deferred? ==> BodyValid(content.body)
  }

  /** The content as a mount image, or `None` when there is none. */
  ghost function ContentView(content: Content): Option<Image>
    reads ContentObjects(content)
    requires ContentValid(content)
  {
    match content
    case NoContent => None
    case Text(s) => Some(Markup(s))
    case Deferred(b) => Some(Lazy(BodyValues(b)))
  }

  /** Reference definition of a host tag's content: the inner HTML when it is
      set, unless its `__html` is null or any other value that tests false
      (the mount then sees no content); otherwise escaped text for string and number children;
      otherwise the mounted children (one element mounted on its own, any
      other value de-duplicated and mounted child by child). */
  function ContentImage(c: Collaborators, props: seq<Prop>): Option<Image>
  {
    var innerHTML := Get(props, "dangerouslySetInnerHTML");
    var children := Get(props, "children");
    if innerHTML != Null then
      var html := if innerHTML.Obj? && "__html" in innerHTML.fields then innerHTML.fields["__html"] else Null;
      if !IsFalsy(html) then Some(Markup(StringOf(c.stringify, html))) else None
    else if children.Str? || children.Num? then
      Some(Markup(c.escape(StringOf(c.stringify, children))))
    else if children == Null then
      None
    else if IsValidElement(children) then
      Some(c.mount(children))
    else
      Some(Lazy(Flatten(Children.MountAll(c.mount, ChildReconciler.ChildrenOf(ChildReconciler.Kept(c.traverse(children)))))))
  }

  /** The text of some content once drained; none drains to nothing. */
  function ViewText(view: Option<Image>): string
  {
    match view
    case None => ""
    case Some(image) => TextOf(image)
  }

  /** The text of a host tag's content once drained. */
  function ContentText(c: Collaborators, props: seq<Prop>): string
  {
    ViewText(ContentImage(c, props))
  }

  /** The content is an iterator. */
  predicate ContentIsLazy(c: Collaborators, props: seq<Prop>)
  {
    ContentImage(c, props).Some? && ContentImage(c, props).value.Lazy?
  }

  /** `_createContentMarkup`. */
  method CreateContentMarkup(c: Collaborators, props: seq<Prop>) returns (content: Content)
    ensures fresh(ContentObjects(content)) && ContentValid(content)
    ensures ContentView(content) == ContentImage(c, props)
  {
    var innerHTML := Get(props, "dangerouslySetInnerHTML");
    if innerHTML != Null {
      var html := if innerHTML.Obj? && "__html" in innerHTML.fields then innerHTML.fields["__html"] else Null;
      if !IsFalsy(html) {
        return Text(StringOf(c.stringify, html));
      }
      return NoContent;
    }
    var children := Get(props, "children");
    if children.Str? || children.Num? {
      return Text(c.escape(StringOf(c.stringify, children)));
    }
    if children != Null {
      var mounted := Children.MountChildren(children, c.traverse, c.mount);
      match mounted {
        case Single(image) =>
          content := if image.Markup? then Text(image.text) else Deferred(Foreign(image.values));
        case Multiple(it) =>
          content := Deferred(Nested(it));
      }
      return;
    }
    return NoContent;
  }

  // --------------------------------------------------------------- close tag

  /** Reference serializer of a host tag around its drained content: an empty
      omitted-close tag closes itself; any other tag gets `>`, an extra newline
      when it eats a leading newline and its content starts with one, the
      content, and the close tag spelled as the element's type. */
  function HostMarkup(tagOpen: string, tag: string, elementType: string, content: string): string
  {
    if content == "" && IsOmittedCloseTag(tag) then tagOpen + "/>"
    else tagOpen + ">" + NewlineGuard(tag, content) + content + "</" + elementType + ">"
  }

  function NewlineGuard(tag: string, content: string): string
  {
    if IsNewlineEatingTag(tag) && StartsWithChar(content, '\n') then "\n" else ""
  }

  /** What an HTML parser does to the start of a newline-eating tag's content. */
  function EatLeadingNewline(s: string): string
  {
    if StartsWithChar(s, '\n') then s[1..] else s
  }

  /** The markup between the open and the close tag gives back exactly the
      content once a parser has eaten the leading newline of a `pre`, `listing`
      or `textarea`, and is the content itself in any other tag. */
  lemma HostMarkupKeepsContent(tagOpen: string, tag: string, elementType: string, content: string)
    requires !(content == "" && IsOmittedCloseTag(tag))
    ensures var inner := NewlineGuard(tag, content) + content;
      && HostMarkup(tagOpen, tag, elementType, content) == tagOpen + ">" + inner + "</" + elementType + ">"
      && (IsNewlineEatingTag(tag) ==> EatLeadingNewline(inner) == content)
      && (!IsNewlineEatingTag(tag) ==> inner == content)
  {
    var inner := NewlineGuard(tag, content) + content;
    if IsNewlineEatingTag(tag) && StartsWithChar(content, '\n') {
      assert inner[1..] == content;
    }
  }

  /** A tag closes itself exactly when it is an omitted-close tag without content. */
  lemma HostMarkupSelfCloses(tagOpen: string, tag: string, elementType: string, content: string)
    ensures HostMarkup(tagOpen, tag, elementType, content) == tagOpen + "/>"
        <==> content == "" && IsOmittedCloseTag(tag)
  {
    var m := HostMarkup(tagOpen, tag, elementType, content);
    if !(content == "" && IsOmittedCloseTag(tag)) {
      assert m[|tagOpen|] == '>';
      assert (tagOpen + "/>")[|tagOpen|] == '/';
    }
  }

  /** A tag with content, or one that keeps its close tag, is written open tag,
      `>`, newline guard, content, close tag. */
  lemma HostMarkupOpen(tagOpen: string, tag: string, elementType: string, content: string)
    requires content != "" || !IsOmittedCloseTag(tag)
    ensures HostMarkup(tagOpen, tag, elementType, content)
         == tagOpen + ">" + NewlineGuard(tag, content) + content + ("</" + elementType + ">")
  {
  }

  lemma JoinFramed(head: string, middle: seq<string>, tail: string)
    ensures Join([head] + middle + [tail]) == head + Join(middle) + tail
  {
    JoinCons(head, middle + [tail]);
    assert [head] + middle + [tail] == [head] + (middle + [tail]);
    JoinAppend(middle, [tail]);
    JoinSingle(tail);
  }

  // ---------------------------------------------------------------- iterator

  datatype State = StateHead | StateBody | StateDone

  function Rank(s: State): nat
  {
    match s
    case StateHead => 0
    case StateBody => 1
    case StateDone => 2
  }

  /** The iterator a host mount returns when its content is lazy: the head (open
      tag and the first piece of content), the values the body has yet to
      yield, then the tail (the close tag). */
  class ChildrenIterator {
    var state: State
    const head: string
    var body: Body
    const tail: string

    ghost predicate Valid()
      reads this, BodyObjects(body)
    {
      BodyValid(body)
    }

    /** The values this iterator has yet to yield, in order. */
    ghost function Remaining(): seq<string>
      reads this, BodyObjects(body)
      requires Valid()
    {
      match state
      case StateHead => [head] + BodyValues(body) + [tail]
      case StateBody => BodyValues(body) + [tail]
      case StateDone => []
    }

    constructor (head: string, body: Body, tail: string)
      requires BodyValid(body)
      ensures Valid() && state == StateHead
      ensures this.head == head && this.body == body && this.tail == tail
      ensures Remaining() == [head] + BodyValues(body) + [tail]
    {
      this.state := StateHead;
      this.head := head;
      this.body := body;
      this.tail := tail;
    }

    /** `next()`: the head, then each value of the body, then the tail once the
        body is done, then `done` for good. */
    method Next() returns (r: Step)
      requires Valid()
      modifies this, BodyObjects(body)
      ensures Valid() && BodyObjects(body) == old(BodyObjects(body))
      ensures Pulled(old(Remaining()), r, Remaining())
      ensures Rank(old(state)) <= Rank(state)
      ensures r == Done <==> old(state) == StateDone
    {
      match state
      case StateHead =>
        state := StateBody;
        r := Yield(head);
      case StateBody =>
        ghost var before := BodyValues(body);
        var g, next := PullBody(body);
        body := next;
        if g.Done? {
          state := StateDone;
          r := Yield(tail);
        } else {
          assert (before + [tail])[1..] == before[1..] + [tail];
          r := g;
        }
      case StateDone =>
        r := Done;
    }
  }

  /** What a host mount returns: the whole markup, or an iterator over it. */
  datatype HostImage = Eager(markup: string) | Streamed(it: ChildrenIterator)

  ghost function HostImageObjects(m: HostImage): set<object>
    reads if m.Streamed? then {m.it} else {}
  {
    if m.Streamed? then {m.it} + BodyObjects(m.it.body) else {}
  }

  ghost predicate HostImageValid(m: HostImage)
    reads HostImageObjects(m)
  {
    m.Streamed? ==> m.it.Valid()
  }

  /** The markup a host image stands for once drained. */
  ghost function HostDrained(m: HostImage): string
    reads HostImageObjects(m)
    requires HostImageValid(m)
  {
    match m
    case Eager(s) => s
    case Streamed(it) => Join(it.Remaining())
  }

  /** "Exhaust until first byte": pull from the body until a non-empty value
      arrives or the body is done. */
  method ExhaustUntilFirstByte(b: Body) returns (tagContent: string, isGenerator: bool, rest: Body)
    requires BodyValid(b)
    modifies BodyObjects(b)
    ensures BodyObjects(rest) == BodyObjects(b) && BodyValid(rest)
    ensures isGenerator ==> tagContent != "" && tagContent + Join(BodyValues(rest)) == old(Join(BodyValues(b)))
    ensures !isGenerator ==> tagContent == "" && old(Join(BodyValues(b))) == ""
  {
    ghost var full := Join(BodyValues(b));
    tagContent := "";
    isGenerator := true;
    rest := b;
    while tagContent == ""
      invariant BodyObjects(rest) == BodyObjects(b) && BodyValid(rest)
      invariant isGenerator && tagContent + Join(BodyValues(rest)) == full
      decreases |BodyValues(rest)|
    {
      ghost var before := BodyValues(rest);
      var step;
      step, rest := PullBody(rest);
      if step.Done? {
        isGenerator := false;
        break;
      }
      JoinCons(step.value, before[1..]);
      assert before == [step.value] + before[1..];
      tagContent := step.value;
    }
  }

  /** The end of `mountComponent`: exhaust lazy content until its first byte,
      then close the tag, keeping the iterator when content remains to pull.
      Drained, the result is `HostMarkup` of the open tag and the content. */
  method WrapContent(tagOpen: string, tag: string, elementType: string, children: Content) returns (m: HostImage)
    requires ContentValid(children)
    modifies ContentObjects(children)
    ensures HostImageValid(m)
    ensures m.Streamed? ==> fresh(m.it) && BodyObjects(m.it.body) == ContentObjects(children)
    ensures HostDrained(m) == HostMarkup(tagOpen, tag, elementType, old(ViewText(ContentView(children))))
    ensures m.Streamed? <==>
      old(ContentView(children)).Some? && old(ContentView(children)).value.Lazy? && old(ViewText(ContentView(children))) != ""
    ensures m.Streamed? ==>
      m.it.state == StateHead && m.it.tail == "</" + elementType + ">" && |m.it.head| > |tagOpen| + 1
  {
    ghost var text := ViewText(ContentView(children));
    var tagContent := "";
    var isGenerator := false;
    var body := Foreign([]);
    match children {
      case NoContent =>
        assert text == "";
      case Text(s) =>
        JoinSingle(s);
        assert text == s;
        tagContent := s;
      case Deferred(b) =>
        assert text == Join(BodyValues(b));
        tagContent, isGenerator, body := ExhaustUntilFirstByte(b);
    }
    assert text == if isGenerator then tagContent + Join(BodyValues(body)) else tagContent;
    m := CloseTag(tagOpen, tag, elementType, tagContent, isGenerator, body);
  }

  /** The closing half of `mountComponent`: with `isGenerator`, `body` holds the
      content still to pull after `tagContent`. */
  method CloseTag(tagOpen: string, tag: string, elementType: string, tagContent: string, isGenerator: bool, body: Body)
    returns (m: HostImage)
    requires isGenerator ==> tagContent != "" && BodyValid(body)
    ensures HostImageValid(m)
    ensures m.Streamed? <==> isGenerator
    ensures m.Streamed? ==> fresh(m.it) && m.it.body == body
    ensures HostDrained(m) == HostMarkup(tagOpen, tag, elementType,
                                     if isGenerator then tagContent + Join(BodyValues(body)) else tagContent)
    ensures m.Streamed? ==>
      m.it.state == StateHead && m.it.tail == "</" + elementType + ">" && |m.it.head| > |tagOpen| + 1
  {
    if isGenerator {
      var it := StreamContent(tagOpen, tag, elementType, tagContent, body);
      return Streamed(it);
    }
    if tagContent == "" && IsOmittedCloseTag(tag) {
      return Eager(tagOpen + "/>");
    }
    HostMarkupOpen(tagOpen, tag, elementType, tagContent);
    return Eager(tagOpen + ">" + NewlineGuard(tag, tagContent) + tagContent + "</" + elementType + ">");
  }

  /** The iterator over a tag whose content starts with the non-empty
      `tagContent` and goes on with what `body` yields. */
  method StreamContent(tagOpen: string, tag: string, elementType: string, tagContent: string, body: Body)
    returns (it: ChildrenIterator)
    requires tagContent != "" && BodyValid(body)
    ensures fresh(it) && it.Valid() && it.body == body
    ensures Join(it.Remaining()) == HostMarkup(tagOpen, tag, elementType, tagContent + Join(BodyValues(body)))
    ensures it.state == StateHead && it.tail == "</" + elementType + ">" && |it.head| > |tagOpen| + 1
  {
    it := new ChildrenIterator(tagOpen + ">" + NewlineGuard(tag, tagContent) + tagContent, body, "</" + elementType + ">");
    StreamedText(tagOpen, tag, elementType, tagContent, BodyValues(body));
  }

  /** The head, the rest of the content and the close tag of a streamed tag
      drain to the tag's markup. */
  lemma StreamedText(tagOpen: string, tag: string, elementType: string, tagContent: string, rest: seq<string>)
    requires tagContent != ""
    ensures Join([tagOpen + ">" + NewlineGuard(tag, tagContent) + tagContent] + rest + ["</" + elementType + ">"])
         == HostMarkup(tagOpen, tag, elementType, tagContent + Join(rest))
  {
    var middle := Join(rest);
    var content := tagContent + middle;
    var guard := NewlineGuard(tag, tagContent);
    var close := "</" + elementType + ">";
    var prefix := tagOpen + ">" + guard;
    assert content[0] == tagContent[0];
    assert guard == NewlineGuard(tag, content);
    JoinFramed(prefix + tagContent, rest, close);
    HostMarkupOpen(tagOpen, tag, elementType, content);
    assert prefix + tagContent + middle + close == prefix + content + close;
  }

  /** `ReactDOMServerComponent`. */
  class ServerComponent {
    const currentElement: Element
    const tag: string
    var namespaceURI: Option<Namespace>
    var hostParent: ServerComponent?
    var domID: nat
    var hostContainerInfo: ContainerInfo?

    constructor (element: Element)
      ensures currentElement == element && tag == ToLowerAscii(element.elementType)
      ensures namespaceURI == None && hostParent == null && domID == 0 && hostContainerInfo == null
    {
      currentElement := element;
      tag := ToLowerAscii(element.elementType);
      namespaceURI := None;
      hostParent := null;
      domID := 0;
      hostContainerInfo := null;
    }

    /** `new ReactDOMServerComponent(element)`: the element's type must be a
        valid tag name; the component keeps it lower-cased. */
    static method Instantiate(element: Element, cache: TagCache) returns (r: Result<ServerComponent>)
      requires cache.Valid()
      modifies cache
      ensures cache.Valid()
      ensures r.Ok? <==> IsValidTagName(element.elementType)
      ensures r.Err? ==> r.error == InvalidTag(element.elementType)
      ensures r.Ok? ==> fresh(r.value) && r.value.currentElement == element
      ensures r.Ok? ==> r.value.tag == ToLowerAscii(element.elementType) && IsValidTagName(r.value.tag)
    {
      var valid := cache.ValidateDangerousTag(element.elementType);
      if valid.Fail? {
        return Err(valid.error);
      }
      LowerValidTagNameIsValid(element.elementType);
      var component := new ServerComponent(element);
      return Ok(component);
    }

    /** `_createOpenTagMarkup`. */
    method CreateOpenTagMarkup(c: Collaborators, props: seq<Prop>, staticMarkup: bool) returns (ret: string)
      ensures ret == OpenTagMarkup(c, currentElement.elementType, tag, props, staticMarkup, hostParent == null, domID)
    {
      var custom := IsCustomComponent(tag, props);
      var attributes := RenderAttributes(c, custom, props);
      ret := "<" + currentElement.elementType + attributes;
      if staticMarkup {
        return;
      }
      if hostParent == null {
        ret := ret + " " + c.rootMarker;
      }
      ret := ret + " " + c.idMarker(domID);
    }

    /** `mountComponent`: take an id, check the props, pick the namespace, and
        render the open tag, the content and the close tag. The markup, once
        drained, is `HostMarkup` of the open tag and the content; it is an
        iterator exactly when the content is lazy and not empty, and then its
        head already holds the first byte of content. */
    method MountComponent(c: Collaborators, staticMarkup: bool, hostParent: ServerComponent?, info: ContainerInfo)
      returns (r: Result<HostImage>)
      modifies this, info
      ensures domID == old(info.idCounter) && info.idCounter == old(info.idCounter) + 1
      ensures this.hostParent == hostParent && hostContainerInfo == info
      ensures var props := HostProps(c, tag, currentElement.props);
        r.Err? <==> AssertValidProps(tag, props).Fail?
      ensures r.Err? ==> Fail(r.error) == AssertValidProps(tag, HostProps(c, tag, currentElement.props))
      ensures r.Err? ==> namespaceURI == old(namespaceURI)
      ensures r.Ok? ==> namespaceURI == Some(ChooseNamespace(old(ParentNamespace(hostParent, info)), old(ParentTag(hostParent, info)), tag))
      ensures r.Ok? ==> fresh(HostImageObjects(r.value)) && HostImageValid(r.value)
      ensures r.Ok? ==> var props := HostProps(c, tag, currentElement.props);
        && HostDrained(r.value)
           == HostMarkup(OpenTagMarkup(c, currentElement.elementType, tag, props, staticMarkup, hostParent == null, domID),
                         tag, currentElement.elementType, ContentText(c, props))
        && (r.value.Streamed? <==> ContentIsLazy(c, props) && ContentText(c, props) != "")
      ensures r.Ok? && r.value.Streamed? ==>
        && r.value.it.state == StateHead
        && r.value.it.tail == "</" + currentElement.elementType + ">"
        && |r.value.it.head| > |OpenTagMarkup(c, currentElement.elementType, tag, HostProps(c, tag, currentElement.props),
                                                staticMarkup, hostParent == null, domID)| + 1
    {
      var id := info.TakeId();
      domID := id;
      this.hostParent := hostParent;
      hostContainerInfo := info;

      var props := HostProps(c, tag, currentElement.props);
      var valid := AssertValidProps(tag, props);
      if valid.Fail? {
        return Err(valid.error);
      }

      var parentNamespace := ParentNamespace(hostParent, info);
      var parentTag := ParentTag(hostParent, info);
      namespaceURI := Some(ChooseNamespace(parentNamespace, parentTag, tag));

      var image := RenderTag(c, props, staticMarkup);
      return Ok(image);
    }

    /** The rendering half of `mountComponent`: the open tag, the content and
        the close tag of this tag with the given props. */
    method RenderTag(c: Collaborators, props: seq<Prop>, staticMarkup: bool) returns (image: HostImage)
      ensures fresh(HostImageObjects(image)) && HostImageValid(image)
      ensures HostDrained(image)
           == HostMarkup(OpenTagMarkup(c, currentElement.elementType, tag, props, staticMarkup, hostParent == null, domID),
                         tag, currentElement.elementType, ContentText(c, props))
      ensures image.Streamed? <==> ContentIsLazy(c, props) && ContentText(c, props) != ""
      ensures image.Streamed? ==>
        && image.it.state == StateHead
        && image.it.tail == "</" + currentElement.elementType + ">"
        && |image.it.head| > |OpenTagMarkup(c, currentElement.elementType, tag, props, staticMarkup, hostParent == null, domID)| + 1
    {
      var tagOpen := CreateOpenTagMarkup(c, props, staticMarkup);
      var children := CreateContentMarkup(c, props);
      image := WrapContent(tagOpen, tag, currentElement.elementType, children);
    }

    // The update and unmount half of the component interface is not
    // supported by a server render: each of these throws.

    function ReceiveComponent(nextElement: Element): (o: Outcome)
      ensures o == Fail(UnsupportedOperation)
    {
      Fail(UnsupportedOperation)
    }

    function GetHostNode(): (o: Outcome)
      ensures o == Fail(UnsupportedOperation)
    {
      Fail(UnsupportedOperation)
    }

    function UnmountComponent(safely: bool): (o: Outcome)
      ensures o == Fail(UnsupportedOperation)
    {
      Fail(UnsupportedOperation)
    }

    function GetPublicInstance(): (o: Outcome)
      ensures o == Fail(UnsupportedOperation)
    {
      Fail(UnsupportedOperation)
    }
  }

  /** The namespace of the parent a host tag is mounted under: the host
      parent's, or the container's when the container has a tag, else null. */
  function ParentNamespace(hostParent: ServerComponent?, info: ContainerInfo): (ns: Option<Namespace>)
    reads hostParent, info
    ensures hostParent == null && info.tag == "" ==> ns == None
    ensures hostParent != null ==> ns == hostParent.namespaceURI
  {
    if hostParent != null then hostParent.namespaceURI
    else if info.tag != "" then info.namespaceURI
    else None
  }

  /** The tag of that same parent (`""` when there is none). */
  function ParentTag(hostParent: ServerComponent?, info: ContainerInfo): (parentTag: string)
    reads hostParent, info
    ensures hostParent == null ==> parentTag == info.tag
    ensures hostParent != null ==> parentTag == hostParent.tag
  {
    if hostParent != null then hostParent.tag
    else if info.tag != "" then info.tag
    else ""
  }
}
