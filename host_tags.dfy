/** The fixed rules a host tag is mounted by: the void, omitted-close and
    newline-eating tag tables, tag-name validation with its cache, the
    custom-component test, the prop checks, and the namespace a tag is created
    in. */
module HostTags {
  import opened Strings
  import opened Values

  /** Tags whose close tag is omitted: the void elements of section 8.1.2 of
      the W3C HTML5 Recommendation. */
  const OmittedCloseTags: set<string> :=
    {"area", "base", "br", "col", "embed", "hr", "img", "input", "keygen", "link",
     "meta", "param", "source", "track", "wbr"}

  /** Tags whose content loses a leading newline when parsed as HTML: the
      HTML parser's "in body" insertion mode skips a newline token that
      directly follows the start tag of `pre`, `listing` or `textarea`. */
  const NewlineEatingTags: set<string> := {"listing", "pre", "textarea"}

  /** Tags that may have neither children nor inner HTML. */
  const VoidElementTags: set<string> := {"menuitem"} + OmittedCloseTags

  /** Props that never become attributes of a custom element. */
  const ReservedProps: set<string> := {"children", "dangerouslySetInnerHTML", "suppressContentEditableWarning"}

  /** The names every plain object inherits from `Object.prototype`. Each
      table above is an object literal read as `table[tag]`, so such a name is
      found in every table. */
  const ObjectPrototypeKeys: set<string> :=
    {"constructor", "hasOwnProperty", "isPrototypeOf", "propertyIsEnumerable", "toLocaleString",
     "toString", "valueOf", "__proto__", "__defineGetter__", "__defineSetter__",
     "__lookupGetter__", "__lookupSetter__"}

  /** `table[key]` is truthy: an own key of the table or an inherited one. */
  predicate InTable(table: set<string>, key: string)
  {
    key in table || key in ObjectPrototypeKeys
  }

  /** `voidElementTags[tag]` */
  predicate IsVoidTag(tag: string)
  {
    InTable(VoidElementTags, tag)
  }

  /** `omittedCloseTags[tag]` */
  predicate IsOmittedCloseTag(tag: string)
  {
    InTable(OmittedCloseTags, tag)
  }

  /** `newlineEatingTags[tag]` */
  predicate IsNewlineEatingTag(tag: string)
  {
    InTable(NewlineEatingTags, tag)
  }

  /** `menuitem` may not have content, yet keeps its close tag; every other
      void tag has its close tag omitted. */
  lemma MenuitemKeepsCloseTag()
    ensures "menuitem" in VoidElementTags && "menuitem" !in OmittedCloseTags
    ensures VoidElementTags - {"menuitem"} == OmittedCloseTags
  {
  }

  // ---------------------------------------------------------------- tag names

  predicate IsTagNameChar(c: char)
  {
    IsAsciiLetter(c) || IsDigit(c) || c == ':' || c == '_' || c == '.' || c == '-'
  }

  /** The pattern `^[a-zA-Z][a-zA-Z:_.\-\d]*$`. */
  predicate IsValidTagName(tag: string)
  {
    |tag| > 0 && IsAsciiLetter(tag[0]) && forall i :: 1 <= i < |tag| ==> IsTagNameChar(tag[i])
  }

  /** A valid tag name cannot break out of the markup it is written into: it
      holds no space, quote, slash, equals sign or angle bracket. */
  lemma ValidTagNameIsInert(tag: string, i: nat)
    requires IsValidTagName(tag) && i < |tag|
    ensures tag[i] !in {' ', '"', '\'', '/', '=', '<', '>', '\n', '\t'}
  {
  }

  /** Lower-casing a valid tag name gives a valid tag name. */
  lemma LowerValidTagNameIsValid(tag: string)
    requires IsValidTagName(tag)
    ensures IsValidTagName(ToLowerAscii(tag))
  {
    var lower := ToLowerAscii(tag);
    forall i | 1 <= i < |lower| ensures IsTagNameChar(lower[i]) {
      assert IsTagNameChar(tag[i]);
    }
  }

  /** Of the inherited names, only `constructor` is a lower-cased valid tag
      name: a host tag is found in a table iff it is one of its own keys or is
      `constructor`, which every table holds. */
  lemma TableLookupOnValidTag(t: string)
    requires IsValidTagName(t)
    ensures var tag := ToLowerAscii(t);
      && (IsVoidTag(tag) <==> tag in VoidElementTags || tag == "constructor")
      && (IsOmittedCloseTag(tag) <==> tag in OmittedCloseTags || tag == "constructor")
      && (IsNewlineEatingTag(tag) <==> tag in NewlineEatingTags || tag == "constructor")
  {
    var tag := ToLowerAscii(t);
    LowerValidTagNameIsValid(t);
    forall i | 0 <= i < |tag| ensures !('A' <= tag[i] <= 'Z') {
    }
    InheritedLowerTag(tag);
  }

  /** A valid tag name with no upper-case letter is `constructor` if it is an
      inherited name at all. */
  lemma InheritedLowerTag(tag: string)
    requires IsValidTagName(tag)
    requires forall i :: 0 <= i < |tag| ==> !('A' <= tag[i] <= 'Z')
    ensures tag in ObjectPrototypeKeys ==> tag == "constructor"
  {
    assert "hasOwnProperty"[3] == 'O' && "isPrototypeOf"[2] == 'P' && "propertyIsEnumerable"[8] == 'I';
    assert "toLocaleString"[2] == 'L' && "toString"[2] == 'S' && "valueOf"[5] == 'O';
  }

  /** The module-level `validatedTagCache`. The ghost `checks` counts how many
      times the pattern has been tested. */
  class TagCache {
    var validated: set<string>
    ghost var checks: nat

    /** Only accepted tags are ever cached. */
    ghost predicate Valid()
      reads this
    {
      forall tag :: tag in validated ==> IsValidTagName(tag)
    }

    constructor ()
      ensures Valid() && validated == {} && checks == 0
    {
      validated := {};
      checks := 0;
    }

    /** `validateDangerousTag`: a tag not yet in the cache is tested against
        the pattern, and cached when it matches; a cached tag is accepted
        without testing it again. */
    method ValidateDangerousTag(tag: string) returns (o: Outcome)
      requires Valid()
      modifies this
      ensures Valid()
      ensures o == if IsValidTagName(tag) then Pass else Fail(InvalidTag(tag))
      ensures validated == if IsValidTagName(tag) then old(validated) + {tag} else old(validated)
      ensures checks == if tag in old(validated) then old(checks) else old(checks) + 1
    {
      if tag !in validated {
        checks := checks + 1;
        if !IsValidTagName(tag) {
          return Fail(InvalidTag(tag));
        }
        validated := validated + {tag};
      }
      return Pass;
    }
  }

  // ------------------------------------------------------------------- props

  /** `isCustomComponent`: a tag with a dash, or any tag with an `is` prop. */
  predicate IsCustomComponent(tagName: string, props: seq<Prop>)
    ensures Get(props, "is") != Null ==> IsCustomComponent(tagName, props)
    ensures (forall i :: 0 <= i < |tagName| ==> tagName[i] != '-') && (forall i :: 0 <= i < |props| ==> props[i].key != "is")
      ==> !IsCustomComponent(tagName, props)
  {
    (exists i :: 0 <= i < |tagName| && tagName[i] == '-') || Get(props, "is") != Null
  }

  /** An inner-HTML value is well formed when it is an object with an `__html`
      property (whose value may still be null). */
  predicate IsInnerHTMLObject(v: Value)
  {
    v.Obj? && "__html" in v.fields
  }

  /** `assertValidProps`: the checks a host tag's props must pass, in the order
      the source makes them. */
  function AssertValidProps(tag: string, props: seq<Prop>): (o: Outcome)
    ensures o == Pass <==>
      && (IsVoidTag(tag) ==> Get(props, "children") == Null && Get(props, "dangerouslySetInnerHTML") == Null)
      && (Get(props, "dangerouslySetInnerHTML") != Null ==>
            Get(props, "children") == Null && IsInnerHTMLObject(Get(props, "dangerouslySetInnerHTML")))
      && (Get(props, "style") == Null || IsObject(Get(props, "style")))
    ensures IsVoidTag(tag) && Get(props, "children") != Null ==> o == Fail(VoidElementWithContent(tag))
  {
    var children := Get(props, "children");
    var innerHTML := Get(props, "dangerouslySetInnerHTML");
    var style := Get(props, "style");
    if IsVoidTag(tag) && !(children == Null && innerHTML == Null) then
      Fail(VoidElementWithContent(tag))
    else if innerHTML != Null && children != Null then
      Fail(ChildrenWithInnerHTML)
    else if innerHTML != Null && !IsInnerHTMLObject(innerHTML) then
      Fail(MalformedInnerHTML)
    else if !(style == Null || IsObject(style)) then
      Fail(StyleNotObject)
    else
      Pass
  }

  // --------------------------------------------------------------- namespace

  /** The namespace a host tag is created in. `parentNamespace` and `parentTag`
      come from the host parent, or from the container when it has a tag;
      without either the parent namespace is null. */
  function ChooseNamespace(parentNamespace: Option<Namespace>, parentTag: string, tag: string): (ns: Namespace)
    ensures parentNamespace == Some(MathML) ==> ns == MathML
    ensures parentNamespace == Some(Svg) && parentTag != "foreignobject" ==> ns == Svg
    ensures ns == Svg <==>
      (parentNamespace == Some(Svg) && parentTag != "foreignobject") ||
      (InheritsHtml(parentNamespace, parentTag) && tag == "svg")
    ensures ns == MathML <==>
      parentNamespace == Some(MathML) || (InheritsHtml(parentNamespace, parentTag) && tag == "math")
  {
    var inherited :=
      if parentNamespace == None || (parentNamespace == Some(Svg) && parentTag == "foreignobject")
      then Html else parentNamespace.value;
    if inherited == Html && tag == "svg" then Svg
    else if inherited == Html && tag == "math" then MathML
    else inherited
  }

  /** The parent context counts as HTML: no parent namespace, an HTML parent,
      or the SVG `foreignobject` tag. */
  predicate InheritsHtml(parentNamespace: Option<Namespace>, parentTag: string)
  {
    parentNamespace == None || parentNamespace == Some(Html) ||
    (parentNamespace == Some(Svg) && parentTag == "foreignobject")
  }
}
