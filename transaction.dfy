/** The server rendering transaction's write buffer: an append-only buffer with
    a running position, and a one-shot header that the next write emits first. */
module Transaction {
  import opened Strings
  import opened Values

  /** A pending header is emitted only when it is truthy: present and not empty. */
  predicate HeaderPending(header: Option<string>)
  {
    header.Some? && header.value != ""
  }

  /** The chunks `write` appends before its own chunk. */
  function HeaderChunks(header: Option<string>): seq<string>
  {
    if HeaderPending(header) then [header.value] else []
  }

  /** The header left pending after a write. */
  function HeaderAfterWrite(header: Option<string>): Option<string>
  {
    if HeaderPending(header) then None else header
  }

  /** `ReactServer2RenderingTransaction`. The field `serverBuffer` is the record
      `{position: 0}` and is kept as its position. */
  class ServerTransaction {
    const renderToStaticMarkup: bool
    const useCreateElement: bool
    var buffer: seq<string>
    var nextWriteHeader: Option<string>
    var position: nat
    var serverBufferPosition: nat

    /** `position` is the length of everything written so far. */
    ghost predicate Valid()
      reads this
    {
      position == |Join(buffer)|
    }

    constructor (renderToStaticMarkup: bool)
      ensures Valid()
      ensures this.renderToStaticMarkup == renderToStaticMarkup && !useCreateElement
      ensures buffer == [] && nextWriteHeader == None && position == 0 && serverBufferPosition == 0
    {
      this.renderToStaticMarkup := renderToStaticMarkup;
      useCreateElement := false;
      buffer := [];
      nextWriteHeader := None;
      position := 0;
      serverBufferPosition := 0;
    }

    /** `enqueueNextWriteHeader`: replaces any header still pending. */
    method EnqueueNextWriteHeader(header: string)
      modifies this
      ensures nextWriteHeader == Some(header)
      ensures buffer == old(buffer) && position == old(position)
      ensures serverBufferPosition == old(serverBufferPosition)
    {
      nextWriteHeader := Some(header);
    }

    /** `resetNextWriteHeader`: drops the pending header. */
    method ResetNextWriteHeader()
      modifies this
      ensures nextWriteHeader == None
      ensures buffer == old(buffer) && position == old(position)
      ensures serverBufferPosition == old(serverBufferPosition)
    {
      nextWriteHeader := None;
    }

    /** `write`: a truthy pending header is appended and cleared first, then
        the chunk is appended; the position grows by what was appended. */
    method Write(chunk: string)
      requires Valid()
      modifies this
      ensures Valid()
      ensures buffer == old(buffer) + HeaderChunks(old(nextWriteHeader)) + [chunk]
      ensures nextWriteHeader == HeaderAfterWrite(old(nextWriteHeader))
      ensures position == old(position) + |Join(HeaderChunks(old(nextWriteHeader)))| + |chunk|
      ensures buffer[|buffer| - 1] == chunk
      ensures serverBufferPosition == old(serverBufferPosition)
    {
      ghost var header := nextWriteHeader;
      if HeaderPending(nextWriteHeader) {
        var h := nextWriteHeader.value;
        assert (buffer + [h])[..|buffer|] == buffer;
        buffer := buffer + [h];
        position := position + |h|;
        ResetNextWriteHeader();
        JoinSingle(h);
      }
      assert (buffer + [chunk])[..|buffer|] == buffer;
      buffer := buffer + [chunk];
      position := position + |chunk|;
      if !HeaderPending(header) {
        assert HeaderChunks(header) == [];
      }
    }

    /** A run of `write` calls, one per chunk, in order. */
    method WriteAll(chunks: seq<string>)
      requires Valid()
      modifies this
      ensures Valid()
      ensures buffer == old(buffer) + WriteRun(old(nextWriteHeader), chunks)
      ensures chunks != [] ==> nextWriteHeader == HeaderAfterWrite(old(nextWriteHeader))
      ensures chunks == [] ==> nextWriteHeader == old(nextWriteHeader)
      ensures serverBufferPosition == old(serverBufferPosition)
      decreases |chunks|
    {
      if chunks != [] {
        ghost var before := buffer;
        ghost var header := nextWriteHeader;
        Write(chunks[0]);
        ghost var first := HeaderChunks(header) + [chunks[0]];
        assert buffer == before + first;
        ghost var middle := buffer;
        WriteAll(chunks[1..]);
        ghost var rest := WriteRun(HeaderAfterWrite(header), chunks[1..]);
        assert buffer == middle + rest;
        assert WriteRun(header, chunks) == first + rest;
        assert HeaderAfterWrite(HeaderAfterWrite(header)) == HeaderAfterWrite(header);
      }
    }

    /** `flush`: everything written, as one string; its length is `position`. */
    function Flush(): (s: string)
      reads this
      requires Valid()
      ensures |s| == position
    {
      Join(buffer)
    }
  }

  /** The chunks a run of writes appends, starting with `header` pending. */
  function WriteRun(header: Option<string>, chunks: seq<string>): seq<string>
    decreases |chunks|
  {
    if chunks == [] then []
    else HeaderChunks(header) + [chunks[0]] + WriteRun(HeaderAfterWrite(header), chunks[1..])
  }

  /** A pending header is emitted once, just before the first chunk of a run of
      writes, and never again; with no writes it is not emitted at all. */
  lemma {:induction false} HeaderEmittedOnce(header: Option<string>, chunks: seq<string>)
    ensures WriteRun(header, chunks) == (if chunks == [] then [] else HeaderChunks(header)) + chunks
    decreases |chunks|
  {
    if chunks != [] {
      var next := HeaderAfterWrite(header);
      HeaderEmittedOnce(next, chunks[1..]);
      assert HeaderChunks(next) == [];
      HeaderEmittedOnce(None, chunks[1..]);
      assert chunks == [chunks[0]] + chunks[1..];
    }
  }

  /** An empty header is never emitted and stays pending through any write. */
  lemma EmptyHeaderStaysPending(chunks: seq<string>)
    ensures HeaderChunks(Some("")) == []
    ensures HeaderAfterWrite(Some("")) == Some("")
    ensures WriteRun(Some(""), chunks) == chunks
  {
    HeaderEmittedOnce(Some(""), chunks);
  }
}
