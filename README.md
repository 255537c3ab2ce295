# react-dom-gen core, modelled in Dafny

This project models the mount engine of react-dom-gen, a server renderer that
serializes a React element tree to HTML markup and can suspend between chunks.
A mount returns either a complete string or an iterator of strings. A host tag
returns its whole markup when its content is known at once. When its children
are mounted lazily, it returns an iterator with three phases: the head (the
open tag and the first non-empty piece of content), the remaining content, and
the close tag. Text and empty components do not return markup. They write it to
the transaction's buffer or to the render context.

The modules follow the source files:

| module | file | flavour |
|---|---|---|
| `ChildReconciler` | `src/child-reconciler.js` | a traversal context updated in place: class + first-wins specification |
| `Children` | `src/components/children.js` | a stateful iterator: class whose `Next` is proved against the flattened child images |
| `HostTags`, `Generic` | `src/components/generic.js` | tag tables, prop checks and namespace as functions; the head/body/tail iterator, the tag cache and the component as classes |
| `Context` | `src/context.js` | an append-only buffer with a pending open tag: class + functions for the chunks each call appends |
| `Transaction` | `src/ReactServer2RenderingTransaction.js` | buffer with a one-shot header: class |
| `TextComponent` | `src/ReactDOMServerTextComponent.js` | class writing to the transaction |
| `EmptyComponent` | `src/components/empty.js` | class writing to the context |
| `Render` | `src/index.js` | the buffered driver: method with the drain loop and the pool |

Shared modules: `Strings` (joining a buffer, decimal numerals, ASCII
lower-casing), `Values` (JavaScript values, elements, errors, the container
record with the id counter) and `Protocol` (one `next()` step, and mount images
known by the values they yield).

Modelling choices:
- An iterator produced outside a core file is known by the finite sequence of
  values it yields (`Protocol.Image`). Each iterator class carries a ghost
  `Remaining()`, and every `Next` is proved to yield the head of it and leave
  the rest (`Protocol.Pulled`).
- The host mount is proved against `Generic.HostMarkup`, a reference serializer
  of one tag around its drained content. Whether the result is eager or
  streamed, once drained it is exactly that markup.
- Code from outside the core is given as functions. Nothing is assumed about
  their results, but they are total: a foreign function that would throw is
  not modelled (see "## Left out").
  For the host component these are the fields of `Generic.Collaborators`
  (attribute formatters, escaping, `String(v)`, the form wrappers'
  `getHostProps`, `traverseAllChildren`, and child mounting). For the root
  driver they are the parameters `mountRoot` and `addChecksum`.
- A thrown error is a `Result`/`Outcome` value (`Values.Error`).

Behaviours of the code that a reader of the design might not expect, and
that the model follows:
- `menuitem` may not have content, but its close tag is kept. Only the other
  fifteen listed void tags, and the inherited name `constructor`, close
  themselves (`HostTags.MenuitemKeepsCloseTag`,
  `HostTags.TableLookupOnValidTag`).
- An invalid tag name is not cached. It is tested again, and rejected again, on
  every use (`HostTags.TagCache.ValidateDangerousTag`).
- A host tag whose children are lazy stays an iterator as soon as one non-empty
  value is pulled. The tag's whole markup is returned at once only when its
  content is a string or when the lazy content turns out to be empty
  (`Generic.ServerComponent.MountComponent`).
- The tag tables (`voidElementTags`, `omittedCloseTags`, `newlineEatingTags`)
  are plain objects, so a lookup also finds the names every object inherits.
  The tag `constructor` is therefore void, closes itself when empty and has a
  newline guard (`HostTags.TableLookupOnValidTag`).
- The three prop errors are reported separately: content on a void tag,
  children together with inner HTML, and malformed inner HTML.

## Model

| member | source | states |
|---|---|---|
| Strings.NatToStringRoundTrip | src/ReactDOMServerTextComponent.js:69-73 | the numeral written for an id reads back as that id |
| Strings.NumeralPrefixUnique | src/ReactDOMServerTextComponent.js:73-78 | a numeral followed by a non-digit determines both the numeral and the text after it |
| Values.Get | src/components/generic.js:415-423 | `props[key]` is the value of a prop with that key; it is null when no prop has the key |
| Values.GetFindsFirst | src/components/generic.js:415-423 | a present key reads the value of the first prop that carries it |
| Values.StringOf | src/ReactDOMServerTextComponent.js:36 | `'' + v` keeps a string as it is and writes a number as its non-empty decimal numeral, with a `-` exactly when it is negative |
| Values.IsFalsy | src/components/generic.js:323 | objects, functions, elements and arrays test true; a string tests false iff it is empty, a number iff it is zero |
| Values.ContainerInfo.TakeId | src/components/generic.js:253 | `_idCounter++` returns the current id and advances the counter by exactly one |
| Protocol.FlattenText | src/components/children.js:34-55 | flattening nested images keeps each image's values contiguous and in order: the drained text is the images' texts concatenated |
| ChildReconciler.Kept | src/child-reconciler.js:20-32 | the entries a traversal keeps are never more than it visits (what they are is stated by `KeptIsFirstOccurrences`) |
| ChildReconciler.TraverseContext.constructor | src/child-reconciler.js:52-55 | a traversal starts with no seen names and no children |
| ChildReconciler.TraverseContext.InstantiateChild | src/child-reconciler.js:20-32 | a non-null child with an unseen name is pushed and its name marked seen; otherwise nothing changes; the seen-names set and the children list stay in step with the pushed entries |
| ChildReconciler.InstantiateChildren | src/child-reconciler.js:48-58 | null gives null; otherwise the children are those of `Kept` applied to the traversal's entries |
| ChildReconciler.SeenNamesAreNonNullNames | src/child-reconciler.js:20-32 | after the traversal, a name is seen iff some non-null child carried it (a null child never marks its name) |
| ChildReconciler.KeptIsFirstOccurrences | src/child-reconciler.js:20-32 | first wins: the kept entries are exactly the first non-null occurrence of each name, in traversal order |
| ChildReconciler.KeptNamesDistinct | src/child-reconciler.js:22-31 | no two kept children share a name |
| ChildReconciler.KeptNonNull | src/child-reconciler.js:28-31 | every kept child is non-null |
| Children.ChildrenIterator.constructor | src/components/children.js:20-28 | a new iterator starts at the first child, with nothing pending, and will yield the flattened images of all the children |
| Children.ChildrenIterator.Next | src/components/children.js:34-55 | each call yields the next value of the flattened child images, or done once there are none; a pending nested image is drained before the next child is mounted |
| Children.ChildrenIterator.NextChild | src/components/children.js:41-54 | the next child is mounted exactly when it is reached (the ghost log of mounted children grows by that child); a string image is yielded as one value, an iterator image is drained in place |
| Children.MountChildren | src/components/children.js:97-111 | a single valid element is mounted at once and its image returned unchanged; any other children value gives an unmounted iterator over the de-duplicated children |
| HostTags.TableLookupOnValidTag | src/components/generic.js:68 | the tag tables are plain objects, so a lookup also finds inherited names; of those only `constructor` is a lower-cased valid tag name, so a host tag is void, omitted-close or newline-eating iff it is one of the table's own keys or is `constructor` |
| HostTags.MenuitemKeepsCloseTag | src/components/generic.js:128-158 | `menuitem` is void but keeps its close tag; the void tags less `menuitem` are exactly the omitted-close tags |
| HostTags.ValidTagNameIsInert | src/components/generic.js:160-164 | a name matching the tag pattern holds no space, quote, slash, equals sign, angle bracket or line break |
| HostTags.LowerValidTagNameIsValid | src/components/generic.js:229-232 | the lower-cased form of a validated tag name still matches the pattern |
| HostTags.TagCache.constructor | src/components/generic.js:165 | the cache starts empty |
| HostTags.IsCustomComponent | src/components/generic.js:175-177 | a tag with an `is` prop is custom; a tag with no dash and no `is` prop is not |
| HostTags.TagCache.ValidateDangerousTag | src/components/generic.js:165-173 | a tag passes iff it matches the pattern; only passing tags are cached; a cached tag is not tested again, an uncached one is tested once |
| HostTags.AssertValidProps | src/components/generic.js:63-123 | the props pass iff a void tag has neither children nor inner HTML, inner HTML excludes children and is an object with `__html`, and style is null or an object; children on a void tag fail with the void-element error; the void test is an object lookup, so the tag `constructor` counts as void |
| HostTags.ChooseNamespace | src/components/generic.js:282-302 | MathML is inherited; SVG is inherited except under `foreignobject`; from an HTML context `svg` switches to SVG and `math` to MathML; each namespace is characterised iff |
| Generic.HostProps | src/components/generic.js:259-276 | only the four form tags have their props replaced by their wrapper's host props |
| Generic.ParentNamespace | src/components/generic.js:284-290 | the namespace inherited from the host parent when there is one, else from a container with a tag, else none |
| Generic.ParentTag | src/components/generic.js:284-290 | the tag of the host parent when there is one, else the container's tag |
| Generic.AttributeMarkup | src/components/generic.js:376-397 | a prop contributes an attribute only when it is non-null, not an event handler, not reserved on a custom element, and its markup is non-empty |
| Generic.AttributesAppend | src/components/generic.js:372-398 | attributes are rendered prop by prop: two runs of props give the first run's attributes followed by the second's |
| Generic.AttributesOfContributing | src/components/generic.js:372-398 | null props, event handlers, reserved props and empty markups leave no trace: the attributes are those of the contributing props alone |
| Generic.StaticOpenTagIsPrefix | src/components/generic.js:400-410 | the static open tag is the full open tag with the root and id markers cut off; the root marker comes only without a host parent |
| Generic.PullBody | src/components/generic.js:201 | one `next()` on the content yields its next value, or done once there are none |
| Generic.CreateContentMarkup | src/components/generic.js:413-438 | the content is `ContentImage`: the inner HTML unless `__html` tests false, else escaped text for string and number children, else the mounted children, else none |
| Generic.HostMarkupKeepsContent | src/components/generic.js:344-356 | the text between open and close tag gives back exactly the content once an HTML parser eats the leading newline of a newline-eating tag, and is the content itself in any other tag |
| Generic.HostMarkupSelfCloses | src/components/generic.js:341-342 | a tag closes itself iff it is an omitted-close tag (an object lookup, which `constructor` passes) with no content |
| Generic.ChildrenIterator.constructor | src/components/generic.js:184-189 | a new iterator is at its head and will yield the head, the body's values and the tail |
| Generic.ChildrenIterator.Next | src/components/generic.js:195-211 | yields the head, then each value of the body, then the tail once the body is done, then done for good; the state only moves forward |
| Generic.ExhaustUntilFirstByte | src/components/generic.js:321-339 | pulls until a non-empty value or the end: with a value, it and what is left drain to the whole content; at the end, the whole content was empty |
| Generic.WrapContent | src/components/generic.js:321-366 | drained, the result is `HostMarkup` of the open tag and the drained content; it is an iterator iff the content is lazy and not empty |
| Generic.CloseTag | src/components/generic.js:341-366 | an iterator exactly when content remains to pull, with the close tag as tail; drained, `HostMarkup` of the open tag and the content |
| Generic.StreamContent | src/components/generic.js:359-364 | the iterator's head is the open tag, `>`, guard newline and first content; with the rest and the close tag it drains to `HostMarkup` |
| Generic.ServerComponent.constructor | src/components/generic.js:228-241 | the component keeps the element and its lower-cased tag, with no namespace, parent, id or container yet |
| Generic.ServerComponent.Instantiate | src/components/generic.js:228-241 | construction succeeds iff the element's type is a valid tag name; the component keeps the type lower-cased |
| Generic.ServerComponent.CreateOpenTagMarkup | src/components/generic.js:369-411 | the loop over the props (`Generic.RenderAttributes`, one turn of which is `Generic.PropAttribute`) builds `OpenTagMarkup`: `<type`, the attributes in prop order, then the root and id markers unless static |
| Generic.ServerComponent.MountComponent | src/components/generic.js:247-367 | takes the next id for the host itself; fails iff the host's own props fail the checks, and then leaves the namespace as it was; otherwise sets the namespace; drained, the markup is `HostMarkup` of the open tag and the content text; it is an iterator iff the content is lazy and non-empty, and then its head already holds the first content |
| Generic.ServerComponent.RenderTag | src/components/generic.js:319-366 | the open tag, content and close tag of the tag, drained, are `HostMarkup`; streamed iff the content is lazy and not empty |
| Generic.ServerComponent.ReceiveComponent | src/components/generic.js:440-442 | always throws "unsupported operation" |
| Generic.ServerComponent.GetHostNode | src/components/generic.js:444-446 | always throws "unsupported operation" |
| Generic.ServerComponent.UnmountComponent | src/components/generic.js:448-450 | always throws "unsupported operation" |
| Generic.ServerComponent.GetPublicInstance | src/components/generic.js:452-454 | always throws "unsupported operation" |
| Context.RenderContext.constructor | src/context.js:2-7 | an empty buffer at position 0 with no pending tag |
| Context.RenderContext.WriteRaw | src/context.js:51-54 | appends one chunk; the position grows by its length |
| Context.RenderContext.Write | src/context.js:29-49 | a pending open tag is completed with `>` (and a guard newline when a newline-eating tag's chunk starts with one) before the chunk; the flags are cleared |
| Context.RenderContext.WriteIncompleteOpenTag | src/context.js:9-16 | writes the open tag, marks it pending, and returns the position just after it |
| Context.RenderContext.CompleteTag | src/context.js:18-27 | `/>` when nothing was written since the saved position and the close tag may be omitted, otherwise the close tag written like any chunk |
| Context.RenderContext.WriteChunks | src/context.js:29-49 | a run of writes appends `Writes` of the flags it started with; any write clears the flags |
| Context.RenderContext.WriteElement | src/context.js:9-49 | an open tag, a write per content chunk and `completeTag` with the saved position append exactly `Element`, and leave no pending tag |
| Context.RenderContext.Flush | src/context.js:56-58 | the buffer joined; its length is the position |
| Context.WritesPlain | src/context.js:29-49 | once the open tag is completed, later writes append their chunks unchanged |
| Context.WritesMovePosition | src/context.js:18-27 | the tag counts as empty iff no content chunk was written at all |
| Context.ElementWithoutContent | src/context.js:9-27 | an element with no content is `open/>` when its close tag may be omitted, `open></tag>` otherwise |
| Context.ElementWithChunks | src/context.js:9-49 | an element with content is the open tag, `>`, the guard newline decided by the first chunk, the content and the close tag |
| Context.ElementWithContent | src/context.js:9-49 | with a non-empty first chunk, the guard newline is decided by the content as a whole, as in a host tag rendered to a string |
| Context.EmptyFirstChunk | src/context.js:29-49 | an empty first chunk completes the open tag: the tag is never self-closed and no guard newline is written, even when later content starts with a newline |
| Transaction.ServerTransaction.constructor | src/ReactServer2RenderingTransaction.js:42-55 | a new transaction has an empty buffer, no header, position 0, and the given static flag |
| Transaction.ServerTransaction.EnqueueNextWriteHeader | src/ReactServer2RenderingTransaction.js:95-97 | the header replaces any pending one; the buffer is untouched |
| Transaction.ServerTransaction.ResetNextWriteHeader | src/ReactServer2RenderingTransaction.js:99-101 | the pending header is dropped; the buffer is untouched |
| Transaction.ServerTransaction.Write | src/ReactServer2RenderingTransaction.js:103-111 | a non-empty pending header is appended and cleared before the chunk; the chunk ends the buffer; the position grows by what was appended |
| Transaction.ServerTransaction.WriteAll | src/ReactServer2RenderingTransaction.js:103-111 | a run of writes appends `WriteRun` of the header pending at its start; a non-empty run leaves the header as one write does |
| Transaction.ServerTransaction.Flush | src/ReactServer2RenderingTransaction.js:113-115 | the buffer joined; its length is the position |
| Transaction.HeaderEmittedOnce | src/ReactServer2RenderingTransaction.js:103-111 | over a run of writes a pending header is emitted once, just before the first chunk, and never again |
| Transaction.EmptyHeaderStaysPending | src/ReactServer2RenderingTransaction.js:104 | an empty header is never emitted and stays pending through any number of writes |
| TextComponent.TextMarkupUnique | src/ReactDOMServerTextComponent.js:72-79 | wrapped text markup determines both the id and the escaped text it was written from |
| TextComponent.TextComponent.constructor | src/ReactDOMServerTextComponent.js:33-37 | the text is kept, with its string form |
| TextComponent.TextComponent.MountComponent | src/ReactDOMServerTextComponent.js:49-81 | takes the next id in both modes and makes exactly one write: the escaped text, wrapped in `react-text` markers with the id unless static |
| TextComponent.TextComponent.ReceiveComponent | src/ReactDOMServerTextComponent.js:83-85 | always throws "unsupported operation" |
| TextComponent.TextComponent.GetHostNode | src/ReactDOMServerTextComponent.js:87-89 | always throws "unsupported operation" |
| TextComponent.TextComponent.UnmountComponent | src/ReactDOMServerTextComponent.js:91-93 | always throws "unsupported operation" |
| EmptyComponent.EmptyMarkerUnique | src/components/empty.js:25-29 | the empty marker determines its id |
| EmptyComponent.EmptyMarkerIsNotText | src/components/empty.js:27-29 | an empty marker never equals wrapped text markup |
| EmptyComponent.EmptyComponent.constructor | src/components/empty.js:14-17 | the current element is null |
| EmptyComponent.EmptyComponent.MountComponent | src/components/empty.js:19-31 | takes the next id in both modes; a static render leaves the context unchanged, otherwise the marker is written like any chunk |
| EmptyComponent.EmptyComponent.ReceiveComponent | src/components/empty.js:32-34 | always throws "unsupported operation" |
| EmptyComponent.EmptyComponent.GetHostNode | src/components/empty.js:35-37 | always throws "unsupported operation" |
| EmptyComponent.EmptyComponent.UnmountComponent | src/components/empty.js:38-40 | always throws "unsupported operation" |
| Render.StaticRenderIsDrained | src/index.js:59-61 | a static render is the drained markup itself; only a non-static render goes through the checksum |
| Render.Pool.GetPooled | src/index.js:34 | one more transaction is out, with the requested static flag |
| Render.Pool.Release | src/index.js:64 | one transaction fewer is out |
| Render.RenderToStringImpl | src/index.js:31-66 | the result is `Rendered`: an iterator image drained in order, a string as it is, nothing as `''`, the checksum added unless static, errors passed on; the transaction is given back on every path |
| Render.RenderToString | src/index.js:73-79 | an invalid element fails before any transaction is taken; otherwise a non-static render; the pool is left as it was |
| Render.RenderToStaticMarkup | src/index.js:86-92 | an invalid element fails; otherwise the drained markup with no checksum; the pool is left as it was |

## Left out

- The streaming driver (`createRenderStream`), the checksum algorithm and the injection of these components into react-dom are not part of this model. The checksum is the parameter `addChecksum`.
- Attribute, style and root/id marker formatting, escaping, `String(v)`, `traverseAllChildren`, `instantiateReactComponent` and `ReactReconciler.mountComponent` are library code. They are uninterpreted functions.
- Generic.ServerComponent.MountComponent: the side effects of the form wrappers' `mountWrapper` are not modelled; only their `getHostProps` result is.
- Generic.ServerComponent.MountComponent: a truthy `__html` that is not a string is rendered through `String(v)`. The source would call `charAt` on it in a newline-eating tag and throw; that throw is not modelled.
- Generic.ServerComponent.MountComponent, Children.MountChildren, Children.ChildrenIterator.Next: the collaborators `traverse` (`traverseAllChildren`) and `mount` (`instantiateReactComponent` then `ReactReconciler.mountComponent`) are total functions in the model. An error they throw while the host mounts its children is not modelled: a child with invalid props or an invalid tag mounted on the spot or in the look-ahead for the first byte, or a plain-object child. So `MountComponent`'s "fails iff" covers only the host's own prop checks, and its "+1" counts only the host's own id; ids taken by child mounts are not counted.
- Generic.CreateContentMarkup: a mounted child is a function of the child alone. The ids the child's own mount takes from the shared counter, and the writes a text or empty child makes to the transaction or context, are not modelled.
- Children.ChildrenIterator.NextChild: a child mount that returns nothing (a text or empty child, whose mount writes to a buffer and returns `undefined`) is modelled as a string image. In the source that value would be yielded as `undefined`.
- Render.RenderToStringImpl: only an error thrown by the root mount, or by the root iterator after some values, is modelled. Errors thrown while mounting an inner child inside an iterator are not modelled separately.
- Render.Pool.GetPooled: pooling is modelled as a count of outstanding transactions. Reuse of a released object and its reset are not modelled. The wrappers that `transaction.perform` runs are not modelled either.
- Context.RenderContext.WriteRaw: a JavaScript string's length counts UTF-16 code units; the model's `position` counts characters. The two differ on characters outside the Basic Multilingual Plane. Only `completeTag`'s emptiness test reads the position, and that test is the same under either count.
- Transaction.ServerTransaction.Write: as for the render context, the transaction's `position` counts characters where JavaScript counts UTF-16 code units. Nothing in the core reads this position.
- Values.Get: a props object has distinct keys, but `seq<Prop>` does not require it. `Get` reads the first prop with the key (`GetFindsFirst`), and the open tag renders every prop in order, so a duplicated key renders twice where an object would keep one.
- Values.Value: numbers are integers. Floating point values, `NaN` and their printing are not modelled.
- TextComponent.TextComponent.MountComponent: the `hostParent` and `context` arguments are unused by the source outside development checks, and are dropped.
- Development-only branches are not modelled: nesting validation, the duplicate-key warning, owner tracking and prop warnings.
- Update and unmount are unsupported by the source. They are modelled only as the errors they throw.
