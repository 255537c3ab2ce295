/** The render context a component writes markup into: an append-only buffer
    with a running position, and an "incomplete open tag" whose `>` is only
    written once the tag turns out to have content. */
module Context {
  import opened Strings

  /** The chunks `write(chunk)` appends while the given flags are set: the
      pending `>` (and the guard newline a newline-eating tag needs before
      content that starts with one), then the chunk. */
  function Emission(incompleteOpenTag: bool, newlineEatingTag: bool, chunk: string): seq<string>
  {
    (if incompleteOpenTag then [">"] + (if newlineEatingTag && StartsWithChar(chunk, '\n') then ["\n"] else []) else [])
    + [chunk]
  }

  /** The chunks `completeTag` appends: `/>` when nothing was written since the
      open tag and the close tag may be omitted, else the close tag, written
      like any chunk. */
  function Closing(incompleteOpenTag: bool, newlineEatingTag: bool, isEmpty: bool, tagName: string, omitCloseTag: bool)
    : seq<string>
  {
    if isEmpty && omitCloseTag then ["/>"]
    else Emission(incompleteOpenTag, newlineEatingTag, "</" + tagName + ">")
  }

  /** `RenderContext`. */
  class RenderContext {
    var buffer: seq<string>
    var incompleteOpenTag: bool
    var newlineEatingTag: bool
    var position: nat

    /** `position` is the length of everything written so far, and the
        newline-eating flag is only ever set on a pending open tag. */
    ghost predicate Valid()
      reads this
    {
      position == |Join(buffer)| && (newlineEatingTag ==> incompleteOpenTag)
    }

    constructor ()
      ensures Valid()
      ensures buffer == [] && !incompleteOpenTag && !newlineEatingTag && position == 0
    {
      buffer := [];
      incompleteOpenTag := false;
      newlineEatingTag := false;
      position := 0;
    }

    /** `_write`: append one chunk and advance the position by its length. */
    method WriteRaw(chunk: string)
      requires Valid()
      modifies this
      ensures Valid()
      ensures buffer == old(buffer) + [chunk] && position == old(position) + |chunk|
      ensures incompleteOpenTag == old(incompleteOpenTag) && newlineEatingTag == old(newlineEatingTag)
    {
      assert (buffer + [chunk])[..|buffer|] == buffer;
      buffer := buffer + [chunk];
      position := position + |chunk|;
    }

    /** `write`: complete a pending open tag first, then append the chunk. */
    method Write(chunk: string)
      requires Valid()
      modifies this
      ensures Valid() && !incompleteOpenTag && !newlineEatingTag
      ensures buffer == old(buffer) + Emission(old(incompleteOpenTag), old(newlineEatingTag), chunk)
    {
      if incompleteOpenTag {
        WriteRaw(">");
        if newlineEatingTag && StartsWithChar(chunk, '\n') {
          WriteRaw("\n");
        }
        incompleteOpenTag := false;
        newlineEatingTag := false;
      }
      WriteRaw(chunk);
    }

    /** `writeIncompleteOpenTag`: write the open tag without its `>`, mark it
        pending, and return the position just after it. */
    method WriteIncompleteOpenTag(markup: string, newlineEatingTag: bool) returns (saved: nat)
      requires Valid()
      modifies this
      ensures Valid() && incompleteOpenTag && this.newlineEatingTag == newlineEatingTag
      ensures buffer == old(buffer) + Emission(old(incompleteOpenTag), old(this.newlineEatingTag), markup)
      ensures saved == position
    {
      Write(markup);
      incompleteOpenTag := true;
      this.newlineEatingTag := newlineEatingTag;
      return position;
    }

    /** `completeTag`: the tag is empty when the position has not moved since
        `saved`. */
    method CompleteTag(tagName: string, omitCloseTag: bool, saved: nat)
      requires Valid()
      modifies this
      ensures Valid() && !incompleteOpenTag && !newlineEatingTag
      ensures buffer == old(buffer)
        + Closing(old(incompleteOpenTag), old(newlineEatingTag), old(position) == saved, tagName, omitCloseTag)
    {
      var isEmpty := position == saved;
      if isEmpty && omitCloseTag {
        incompleteOpenTag := false;
        newlineEatingTag := false;
        Write("/>");
      } else {
        Write("</" + tagName + ">");
      }
    }

    /** A run of `write` calls, one per chunk, in order. */
    method WriteChunks(chunks: seq<string>)
      requires Valid()
      modifies this
      ensures Valid()
      ensures buffer == old(buffer) + Writes(old(incompleteOpenTag), old(newlineEatingTag), chunks)
      ensures chunks != [] ==> !incompleteOpenTag && !newlineEatingTag
      ensures chunks == [] ==>
        incompleteOpenTag == old(incompleteOpenTag) && newlineEatingTag == old(newlineEatingTag)
      decreases |chunks|
    {
      if chunks != [] {
        ghost var before := buffer;
        ghost var first := Emission(incompleteOpenTag, newlineEatingTag, chunks[0]);
        Write(chunks[0]);
        WriteChunks(chunks[1..]);
        assert buffer == before + first + Writes(false, false, chunks[1..]);
      }
    }

    /** One element written into a context with no pending open tag:
        `writeIncompleteOpenTag`, a `write` per chunk of content, then
        `completeTag` with the position the open tag returned. */
    method WriteElement(open: string, newlineEatingTag: bool, chunks: seq<string>, tagName: string, omitCloseTag: bool)
      requires Valid() && !incompleteOpenTag
      modifies this
      ensures Valid() && !incompleteOpenTag && !this.newlineEatingTag
      ensures buffer == old(buffer) + Element(open, newlineEatingTag, chunks, tagName, omitCloseTag)
    {
      ghost var start := buffer;
      var saved := WriteIncompleteOpenTag(open, newlineEatingTag);
      ghost var afterOpen := buffer;
      WriteChunks(chunks);
      ghost var content := Writes(true, newlineEatingTag, chunks);
      JoinAppend(afterOpen, content);
      ghost var afterContent := buffer;
      ghost var isEmpty := position == saved;
      CompleteTag(tagName, omitCloseTag, saved);
      ElementAppends(start, afterOpen, afterContent, buffer, open, newlineEatingTag, chunks, tagName, omitCloseTag, isEmpty);
    }

    /** `flush`: everything written, as one string; its length is `position`. */
    function Flush(): (s: string)
      reads this
      requires Valid()
      ensures |s| == position
    {
      Join(buffer)
    }
  }

  // ----------------------------------------------- one element, call by call

  /** The chunks a run of `write` calls appends, the first made with the given
      flags (each write clears them for the next). */
  function Writes(incompleteOpenTag: bool, newlineEatingTag: bool, chunks: seq<string>): seq<string>
  {
    if chunks == [] then []
    else Emission(incompleteOpenTag, newlineEatingTag, chunks[0]) + Writes(false, false, chunks[1..])
  }

  /** The chunks one element appends to a context with no pending tag:
      `writeIncompleteOpenTag(open, newlineEatingTag)`, then `write` of each
      chunk of content, then `completeTag(tagName, omitCloseTag, saved)` with
      the position `writeIncompleteOpenTag` returned. */
  function Element(open: string, newlineEatingTag: bool, chunks: seq<string>, tagName: string, omitCloseTag: bool)
    : seq<string>
  {
    var content := Writes(true, newlineEatingTag, chunks);
    [open] + content
    + if chunks == [] then Closing(true, newlineEatingTag, |Join(content)| == 0, tagName, omitCloseTag)
      else Closing(false, false, |Join(content)| == 0, tagName, omitCloseTag)
  }

  /** The buffers one element passes through, from the open tag to the close
      tag, append `Element` in all. */
  lemma ElementAppends(start: seq<string>, afterOpen: seq<string>, afterContent: seq<string>, final: seq<string>,
                       open: string, newlineEatingTag: bool, chunks: seq<string>, tagName: string, omitCloseTag: bool,
                       isEmpty: bool)
    requires afterOpen == start + [open]
    requires afterContent == afterOpen + Writes(true, newlineEatingTag, chunks)
    requires isEmpty == (|Join(Writes(true, newlineEatingTag, chunks))| == 0)
    requires final == afterContent + Closing(chunks == [], chunks == [] && newlineEatingTag, isEmpty, tagName, omitCloseTag)
    ensures final == start + Element(open, newlineEatingTag, chunks, tagName, omitCloseTag)
  {
    var content := Writes(true, newlineEatingTag, chunks);
    var closing := Closing(chunks == [], chunks == [] && newlineEatingTag, isEmpty, tagName, omitCloseTag);
    if chunks == [] {
      assert closing == Closing(true, newlineEatingTag, isEmpty, tagName, omitCloseTag);
    } else {
      assert closing == Closing(false, false, isEmpty, tagName, omitCloseTag);
    }
    assert Element(open, newlineEatingTag, chunks, tagName, omitCloseTag) == [open] + content + closing;
    assert final == start + ([open] + content + closing);
  }

  /** Content written after the first chunk is appended as it is. */
  lemma {:induction false} WritesPlain(chunks: seq<string>)
    ensures Writes(false, false, chunks) == chunks
    decreases |chunks|
  {
    if chunks != [] {
      WritesPlain(chunks[1..]);
      assert chunks == [chunks[0]] + chunks[1..];
    }
  }

  /** Any content write completes the open tag, so the tag counts as empty
      exactly when no chunk was written at all. */
  lemma WritesMovePosition(newlineEatingTag: bool, chunks: seq<string>)
    ensures |Join(Writes(true, newlineEatingTag, chunks))| == 0 <==> chunks == []
  {
    if chunks != [] {
      var first := Emission(true, newlineEatingTag, chunks[0]);
      JoinAppend(first, Writes(false, false, chunks[1..]));
      JoinCons(">", first[1..]);
      assert first == [">"] + first[1..];
    }
  }

  /** An element with no content is written `open/>` when its close tag may be
      omitted, and `open></tag>` otherwise. */
  lemma ElementWithoutContent(open: string, newlineEatingTag: bool, tagName: string, omitCloseTag: bool)
    ensures omitCloseTag ==> Join(Element(open, newlineEatingTag, [], tagName, omitCloseTag)) == open + "/>"
    ensures !omitCloseTag ==>
      Join(Element(open, newlineEatingTag, [], tagName, omitCloseTag)) == open + ">" + "</" + tagName + ">"
  {
    var close := "</" + tagName + ">";
    assert Writes(true, newlineEatingTag, []) == [];
    if omitCloseTag {
      assert Element(open, newlineEatingTag, [], tagName, omitCloseTag) == [open] + ["/>"];
      JoinCons(open, ["/>"]);
      JoinSingle("/>");
    } else {
      assert close[0] == '<';
      assert Element(open, newlineEatingTag, [], tagName, omitCloseTag) == [open] + ([">"] + [close]);
      JoinCons(open, [">"] + [close]);
      JoinCons(">", [close]);
      JoinSingle(close);
    }
  }

  /** An element with content is written as the open tag, `>`, a guard
      newline when a newline-eating tag's first chunk starts with one, the
      content, and the close tag. */
  lemma ElementWithChunks(open: string, newlineEatingTag: bool, chunks: seq<string>, tagName: string, omitCloseTag: bool)
    requires chunks != []
    ensures Join(Element(open, newlineEatingTag, chunks, tagName, omitCloseTag))
      == open + ">" + (if newlineEatingTag && StartsWithChar(chunks[0], '\n') then "\n" else "")
         + Join(chunks) + "</" + tagName + ">"
  {
    var close := "</" + tagName + ">";
    var content := Writes(true, newlineEatingTag, chunks);
    var guard := if newlineEatingTag && StartsWithChar(chunks[0], '\n') then "\n" else "";
    WritesMovePosition(newlineEatingTag, chunks);
    ContentWritesText(newlineEatingTag, chunks);
    assert Element(open, newlineEatingTag, chunks, tagName, omitCloseTag) == [open] + content + [close];
    JoinAppend([open] + content, [close]);
    JoinCons(open, content);
    JoinSingle(close);
    RegroupWrites(open, guard, Join(chunks), tagName);
  }

  /** When the first chunk of content is not empty, the guard newline is
      decided by the content as a whole, as in a tag rendered to a string. */
  lemma ElementWithContent(open: string, newlineEatingTag: bool, chunks: seq<string>, tagName: string, omitCloseTag: bool)
    requires chunks != [] && chunks[0] != ""
    ensures Join(Element(open, newlineEatingTag, chunks, tagName, omitCloseTag))
      == open + ">" + (if newlineEatingTag && StartsWithChar(Join(chunks), '\n') then "\n" else "")
         + Join(chunks) + "</" + tagName + ">"
  {
    ElementWithChunks(open, newlineEatingTag, chunks, tagName, omitCloseTag);
    JoinCons(chunks[0], chunks[1..]);
    assert [chunks[0]] + chunks[1..] == chunks;
    assert StartsWithChar(Join(chunks), '\n') == StartsWithChar(chunks[0], '\n');
  }

  /** The text the content writes of an element append: `>`, the guard
      newline, then the chunks. */
  lemma ContentWritesText(newlineEatingTag: bool, chunks: seq<string>)
    requires chunks != []
    ensures Join(Writes(true, newlineEatingTag, chunks))
         == ">" + (if newlineEatingTag && StartsWithChar(chunks[0], '\n') then "\n" else "") + Join(chunks)
  {
    var first := Emission(true, newlineEatingTag, chunks[0]);
    var later := Writes(false, false, chunks[1..]);
    var guard := if newlineEatingTag && StartsWithChar(chunks[0], '\n') then "\n" else "";
    assert Writes(true, newlineEatingTag, chunks) == first + later;
    WritesPlain(chunks[1..]);
    JoinAppend(first, later);
    EmissionText(newlineEatingTag, chunks[0]);
    assert [chunks[0]] + chunks[1..] == chunks;
    JoinCons(chunks[0], chunks[1..]);
    assert Join(first + later) == ">" + guard + chunks[0] + Join(chunks[1..]);
  }

  /** The text of the first write into a pending open tag. */
  lemma EmissionText(newlineEatingTag: bool, chunk: string)
    ensures Join(Emission(true, newlineEatingTag, chunk))
         == ">" + (if newlineEatingTag && StartsWithChar(chunk, '\n') then "\n" else "") + chunk
  {
    var first := Emission(true, newlineEatingTag, chunk);
    JoinSingle(chunk);
    if newlineEatingTag && StartsWithChar(chunk, '\n') {
      assert first == [">"] + (["\n"] + [chunk]);
      JoinCons(">", ["\n"] + [chunk]);
      JoinCons("\n", [chunk]);
    } else {
      assert first == [">"] + [chunk];
      JoinCons(">", [chunk]);
    }
  }

  lemma RegroupWrites(open: string, guard: string, content: string, tagName: string)
    ensures open + (">" + guard + content) + ("</" + tagName + ">") == open + ">" + guard + content + "</" + tagName + ">"
  {
  }

  /** An empty first chunk completes the open tag before anything is known of
      the content: the tag is then never self-closed, and no guard newline is
      written even when later content starts with a newline. */
  lemma EmptyFirstChunk(open: string, newlineEatingTag: bool, rest: seq<string>, tagName: string, omitCloseTag: bool)
    ensures Join(Element(open, newlineEatingTag, [""] + rest, tagName, omitCloseTag))
         == open + ">" + Join(rest) + "</" + tagName + ">"
  {
    ElementWithChunks(open, newlineEatingTag, [""] + rest, tagName, omitCloseTag);
    JoinCons("", rest);
  }
}
