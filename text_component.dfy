/** The text component: it writes its escaped text to the transaction, wrapped
    in `react-text` comment markers carrying its id unless the render is
    static, and returns nothing. */
module TextComponent {
  import opened Strings
  import opened Values
  import opened Transaction

  const TextOpenPrefix: string := "<!-- react-text: "
  const TextOpenSuffix: string := " -->"
  const TextClose: string := "<!-- /react-text -->"

  /** The markup a text mount writes for the escaped text. */
  function TextMarkup(staticMarkup: bool, domID: nat, escaped: string): string
  {
    if staticMarkup then escaped
    else TextOpenPrefix + NatToString(domID) + TextOpenSuffix + escaped + TextClose
  }

  /** Wrapped text markup can be read back: it determines both the id and the
      escaped text it was written from. */
  lemma TextMarkupUnique(i: nat, e: string, j: nat, f: string)
    requires TextMarkup(false, i, e) == TextMarkup(false, j, f)
    ensures i == j && e == f
  {
    var r1 := TextOpenSuffix + e + TextClose;
    var r2 := TextOpenSuffix + f + TextClose;
    Regroup(NatToString(i), e);
    Regroup(NatToString(j), f);
    DropPrefix(TextOpenPrefix, NatToString(i) + r1, NatToString(j) + r2);
    assert r1[0] == ' ' && r2[0] == ' ';
    NumeralPrefixUnique(NatToString(i), r1, NatToString(j), r2);
    NatToStringInjective(i, j);
    assert r1 == TextOpenSuffix + (e + TextClose);
    assert r2 == TextOpenSuffix + (f + TextClose);
    DropPrefix(TextOpenSuffix, e + TextClose, f + TextClose);
    assert e == (e + TextClose)[..|e|];
    assert f == (f + TextClose)[..|f|];
  }

  lemma Regroup(numeral: string, escaped: string)
    ensures TextOpenPrefix + numeral + TextOpenSuffix + escaped + TextClose
         == TextOpenPrefix + (numeral + (TextOpenSuffix + escaped + TextClose))
  {
  }

  lemma DropPrefix(p: string, a: string, b: string)
    requires p + a == p + b
    ensures a == b
  {
    assert a == (p + a)[|p|..];
    assert b == (p + b)[|p|..];
  }

  /** `ReactDOMTextComponent`. */
  class TextComponent {
    const currentElement: Value
    const stringText: string

    /** `stringify` is `String(v)` for a text that is neither a string nor a number. */
    constructor (text: Value, stringify: Value -> string)
      ensures currentElement == text && stringText == StringOf(stringify, text)
    {
      currentElement := text;
      stringText := StringOf(stringify, text);
    }

    /** `mountComponent`: take an id (in both modes) and make exactly one write
        of the text markup. `escape` is `escapeTextContentForBrowser`. */
    method MountComponent(transaction: ServerTransaction, info: ContainerInfo, escape: string -> string)
      requires transaction.Valid()
      modifies transaction, info
      ensures transaction.Valid()
      ensures info.idCounter == old(info.idCounter) + 1
      ensures transaction.buffer == old(transaction.buffer) + HeaderChunks(old(transaction.nextWriteHeader))
        + [TextMarkup(transaction.renderToStaticMarkup, old(info.idCounter), escape(stringText))]
      ensures transaction.nextWriteHeader == HeaderAfterWrite(old(transaction.nextWriteHeader))
      ensures transaction.serverBufferPosition == old(transaction.serverBufferPosition)
    {
      var domID := info.TakeId();
      var escapedText := escape(stringText);
      if !transaction.renderToStaticMarkup {
        escapedText := TextOpenPrefix + NatToString(domID) + TextOpenSuffix + escapedText + TextClose;
      }
      transaction.Write(escapedText);
    }

    // A server render supports no update or unmount: each of these throws.

    function ReceiveComponent(nextText: Value): (o: Outcome)
      ensures o == Fail(UnsupportedOperation)
    {
      Fail(UnsupportedOperation)
    }

    function GetHostNode(): (o: Outcome)
      ensures o == Fail(UnsupportedOperation)
    {
      Fail(UnsupportedOperation)
    }

    function UnmountComponent(): (o: Outcome)
      ensures o == Fail(UnsupportedOperation)
    {
      Fail(UnsupportedOperation)
    }
  }
}
