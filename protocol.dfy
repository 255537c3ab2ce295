/** The suspension protocol shared by the host and children components: a mount
    returns either a complete string or an iterator of strings, and an iterator
    answers each `next()` with `{value, done}`. */
module Protocol {
  import opened Strings

  /** The record an iterator's `next()` returns: a value, or `done`. */
  datatype Step = Yield(value: string) | Done

  /** One `next()` call on an iterator whose remaining values were `before`:
      it yields the first of them and leaves the rest, or reports `done` and
      leaves nothing when none remain. */
  predicate Pulled(before: seq<string>, step: Step, after: seq<string>)
  {
    if before == [] then step == Done && after == []
    else step == Yield(before[0]) && after == before[1..]
  }

  /** A mount image as a caller sees it: a string, or an iterator known by the
      finite sequence of values it yields before it reports `done`. */
  datatype Image = Markup(text: string) | Lazy(values: seq<string>)

  /** The values a caller pulls, in order, from a sequence of images taken one
      after the other: a string image is pulled as one value, an iterator
      image as all of its values. */
  function Flatten(images: seq<Image>): seq<string>
  {
    if images == [] then []
    else ValuesOf(images[0]) + Flatten(images[1..])
  }

  function ValuesOf(image: Image): seq<string>
  {
    match image
    case Markup(text) => [text]
    case Lazy(values) => values
  }

  /** The text an image stands for once drained. */
  function TextOf(image: Image): string
  {
    Join(ValuesOf(image))
  }

  lemma {:induction false} FlattenAppend(a: seq<Image>, b: seq<Image>)
    ensures Flatten(a + b) == Flatten(a) + Flatten(b)
    decreases |a|
  {
    if a == [] {
      assert a + b == b;
    } else {
      assert (a + b)[0] == a[0] && (a + b)[1..] == a[1..] + b;
      FlattenAppend(a[1..], b);
    }
  }

  /** Flattening keeps each image's values contiguous and in image order: the
      text of the flattened sequence is the concatenation of the images' texts. */
  lemma {:induction false} FlattenText(images: seq<Image>)
    ensures Join(Flatten(images)) == Join(seq(|images|, i requires 0 <= i < |images| => TextOf(images[i])))
    decreases |images|
  {
    var texts := seq(|images|, i requires 0 <= i < |images| => TextOf(images[i]));
    if images != [] {
      var rest := seq(|images| - 1, i requires 0 <= i < |images| - 1 => TextOf(images[1..][i]));
      FlattenText(images[1..]);
      JoinAppend(ValuesOf(images[0]), Flatten(images[1..]));
      assert texts == [TextOf(images[0])] + rest;
      JoinCons(TextOf(images[0]), rest);
    }
  }
}
