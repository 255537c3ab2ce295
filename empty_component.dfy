/** The empty component (what a `null` or `false` render mounts): it writes a
    `react-empty` comment marker carrying its id to the render context, unless
    the render is static, and returns nothing. */
module EmptyComponent {
  import opened Strings
  import opened Values
  import opened Context
  import Transaction
  import TextComponent

  const EmptyPrefix: string := "<!-- react-empty: "
  const EmptySuffix: string := " -->"

  /** The marker an empty mount writes. */
  function EmptyMarker(domID: nat): string
  {
    EmptyPrefix + NatToString(domID) + EmptySuffix
  }

  /** The marker determines the id it was written for. */
  lemma EmptyMarkerUnique(i: nat, j: nat)
    requires EmptyMarker(i) == EmptyMarker(j)
    ensures i == j
  {
    var n := |EmptyPrefix|;
    assert EmptyMarker(i)[n..] == NatToString(i) + EmptySuffix;
    assert EmptyMarker(j)[n..] == NatToString(j) + EmptySuffix;
    NumeralPrefixUnique(NatToString(i), EmptySuffix, NatToString(j), EmptySuffix);
    NatToStringInjective(i, j);
  }

  /** An empty marker is never mistaken for the opening of wrapped text. */
  lemma EmptyMarkerIsNotText(i: nat, j: nat, escaped: string)
    ensures EmptyMarker(i) != TextComponent.TextMarkup(false, j, escaped)
  {
    assert EmptyMarker(i)[11] == 'e';
    assert TextComponent.TextMarkup(false, j, escaped)[11] == 't';
  }

  /** `ReactDOMEmptyComponent`. */
  class EmptyComponent {
    const currentElement: Value

    constructor ()
      ensures currentElement == Null
    {
      currentElement := Null;
    }

    /** `mountComponent`: take an id (in both modes) and, unless the render is
        static, write the marker to the context. */
    method MountComponent(transaction: Transaction.ServerTransaction, info: ContainerInfo, context: RenderContext)
      requires context.Valid()
      modifies info, context
      ensures context.Valid()
      ensures info.idCounter == old(info.idCounter) + 1
      ensures transaction.renderToStaticMarkup ==>
        context.buffer == old(context.buffer) && context.position == old(context.position)
        && context.incompleteOpenTag == old(context.incompleteOpenTag)
        && context.newlineEatingTag == old(context.newlineEatingTag)
      ensures !transaction.renderToStaticMarkup ==>
        context.buffer == old(context.buffer)
          + Emission(old(context.incompleteOpenTag), old(context.newlineEatingTag), EmptyMarker(old(info.idCounter)))
        && !context.incompleteOpenTag && !context.newlineEatingTag
    {
      var domID := info.TakeId();
      var nodeValue := " react-empty: " + NatToString(domID) + " ";
      if !transaction.renderToStaticMarkup {
        assert "<!--" + nodeValue + "-->" == EmptyMarker(domID);
        context.Write("<!--" + nodeValue + "-->");
      }
    }

    // A server render supports no update or unmount: each of these throws.

    function ReceiveComponent(): (o: Outcome)
      ensures o == Fail(UnsupportedOperation)
    {
      Fail(UnsupportedOperation)
    }

    function GetHostNode(): (o: Outcome)
      ensures o == Fail(UnsupportedOperation)
    {
      Fail(UnsupportedOperation)
    }

    function UnmountComponent(): (o: Outcome)
      ensures o == Fail(UnsupportedOperation)
    {
      Fail(UnsupportedOperation)
    }
  }
}
