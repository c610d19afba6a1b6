/** The buffered streams of src/base/stream.h and src/base/stream.cc. */
module Streams {
  import opened Base

  const END_OF_STREAM := -1

  /** Any InputStream: it hands out its bytes in order and may return fewer than asked for. */
  class ByteSource {
    var rest: bytes

    constructor (data: bytes)
      ensures rest == data
    {
      rest := data;
    }

    /** Zero is returned only for an empty request or an exhausted source; how short any other
        read is, is left open. */
    method Read(dest: array<byte>, count: nat) returns (n: nat)
      requires count <= dest.Length
      modifies this, dest
      ensures n <= count
      ensures dest[..n] + rest == old(rest)
      ensures dest[n..] == old(dest[n..])
      ensures count > 0 && old(rest) != [] ==> n > 0
    {
      n :| 0 <= n <= count && n <= |rest| && (count > 0 && rest != [] ==> n > 0);
      forall i | 0 <= i < n {
        dest[i] := rest[i];
      }
      assert dest[..n] == rest[..n];
      rest := rest[n..];
    }
  }

  /** Any OutputStream: it keeps everything it is given. */
  class ByteSink {
    var data: bytes

    constructor ()
      ensures data == []
    {
      data := [];
    }

    method Write(chunk: bytes)
      modifies this
      ensures data == old(data) + chunk
    {
      data := data + chunk;
    }
  }

  class BufferedInputStream {
    const source: ByteSource
    const buffer: array<byte>
    var pos: nat
    var end: nat

    ghost predicate Valid()
      reads this
    {
      pos <= end <= buffer.Length && buffer.Length > 0
    }

    /** The bytes a client has not seen yet. */
    ghost function Rest(): bytes
      reads this, buffer, source
      requires Valid()
    {
      buffer[pos..end] + source.rest
    }

    constructor (source: ByteSource, bufferSize: nat)
      requires bufferSize > 0
      ensures Valid() && fresh(buffer)
      ensures this.source == source && Rest() == source.rest
    {
      this.source := source;
      buffer := new byte[bufferSize](_ => 0);
      pos := 0;
      end := 0;
    }

    /** Refills the buffer; only called when it holds nothing. */
    method FillBuffer() returns (bytesRead: nat)
      requires Valid() && pos == end
      modifies this, buffer, source
      ensures Valid() && pos == 0 && end == bytesRead
      ensures Rest() == old(Rest())
      ensures bytesRead == 0 <==> old(Rest()) == []
    {
      bytesRead := source.Read(buffer, buffer.Length);
      pos := 0;
      end := bytesRead;
    }

    /** The next byte, or -1 at the end of the stream. */
    method ReadByte() returns (ch: int)
      requires Valid()
      modifies this, buffer, source
      ensures Valid()
      ensures ch == END_OF_STREAM <==> old(Rest()) == []
      ensures ch == END_OF_STREAM ==> Rest() == []
      ensures ch != END_OF_STREAM ==> 0 <= ch < 256 && old(Rest()) == [ch as byte] + Rest()
    {
      if pos != end {
        ch := buffer[pos];
        pos := pos + 1;
      } else {
        var bytesRead := FillBuffer();
        if bytesRead > 0 {
          ch := buffer[pos];
          pos := pos + 1;
        } else {
          ch := END_OF_STREAM;
        }
      }
    }

    /** The byte ReadByte would return, without consuming it. */
    method Peek() returns (ch: int)
      requires Valid()
      modifies this, buffer, source
      ensures Valid()
      ensures Rest() == old(Rest())
      ensures ch == if Rest() == [] then END_OF_STREAM else Rest()[0]
    {
      if pos != end {
        ch := buffer[pos];
      } else {
        var bytesRead := FillBuffer();
        if bytesRead > 0 {
          ch := buffer[pos];
        } else {
          ch := END_OF_STREAM;
        }
      }
    }

    /** Copies the first `n` buffered bytes to `dest` and drops them. */
    method TakeBuffered(dest: array<byte>, n: nat)
      requires Valid() && n <= end - pos && n <= dest.Length && dest != buffer
      modifies this, dest
      ensures Valid() && dest[..n] + Rest() == old(Rest())
      ensures dest[n..] == old(dest[n..])
    {
      forall i | 0 <= i < n {
        dest[i] := buffer[pos + i];
      }
      assert dest[..n] == buffer[pos..pos + n];
      assert buffer[pos..end] == buffer[pos..pos + n] + buffer[pos + n..end];
      Assoc(buffer[pos..pos + n], buffer[pos + n..end], source.rest);
      pos := pos + n;
    }

    /** A block read: at most `count` bytes, at least one unless the stream is exhausted. */
    method Read(dest: array<byte>, count: nat) returns (n: nat)
      requires Valid() && count <= dest.Length && dest != buffer
      modifies this, buffer, source, dest
      ensures Valid()
      ensures n <= count
      ensures dest[..n] + Rest() == old(Rest())
      ensures dest[n..] == old(dest[n..])
      ensures count > 0 && old(Rest()) != [] ==> n > 0
    {
      var bytesAvailable := end - pos;
      if bytesAvailable > 0 {
        n := Min(bytesAvailable, count);
        TakeBuffered(dest, n);
        return;
      }
      // Many bytes wanted: skip the buffer.
      if count >= buffer.Length / 2 {
        assert Rest() == source.rest;
        n := source.Read(dest, count);
        assert Rest() == source.rest;
        return;
      }
      var bytesRead := FillBuffer();
      n := Min(bytesRead, count);
      TakeBuffered(dest, n);
    }
  }

  class BufferedOutputStream {
    const sink: ByteSink
    const buffer: array<byte>
    var pos: nat

    /** A full buffer never survives a call. */
    ghost predicate Valid()
      reads this
    {
      pos < buffer.Length
    }

    /** Everything written so far, flushed or not. */
    ghost function Written(): bytes
      reads this, buffer, sink
      requires Valid()
    {
      sink.data + buffer[..pos]
    }

    constructor (sink: ByteSink, bufferSize: nat)
      requires bufferSize > 0
      ensures Valid() && fresh(buffer)
      ensures this.sink == sink && Written() == sink.data
    {
      this.sink := sink;
      buffer := new byte[bufferSize](_ => 0);
      pos := 0;
    }

    method WriteByte(ch: byte)
      requires Valid()
      modifies this, buffer, sink
      ensures Valid() && Written() == old(Written()) + [ch]
    {
      buffer[pos] := ch;
      pos := pos + 1;
      assert sink.data + buffer[..pos] == old(Written()) + [ch];
      if pos == buffer.Length {
        Flush();
      }
    }

    method Write(src: bytes)
      requires Valid()
      modifies this, buffer, sink
      ensures Valid() && Written() == old(Written()) + src
    {
      if |src| >= buffer.Length / 2 {
        Flush();
        sink.Write(src);
        assert Written() == sink.data;
      } else {
        var from := 0;
        while from < |src|
          invariant Valid() && from <= |src|
          invariant Written() == old(Written()) + src[..from]
        {
          var size := Min(|src| - from, buffer.Length - pos);
          Append(src[from..from + size]);
          assert src[..from + size] == src[..from] + src[from..from + size];
          from := from + size;
        }
        assert src[..from] == src;
      }
    }

    /** Buffers a chunk that fits, and flushes when that fills the buffer. */
    method Append(chunk: bytes)
      requires Valid() && pos + |chunk| <= buffer.Length
      modifies this, buffer, sink
      ensures Valid() && Written() == old(Written()) + chunk
    {
      forall i | 0 <= i < |chunk| {
        buffer[pos + i] := chunk[i];
      }
      assert buffer[..pos + |chunk|] == old(buffer[..pos]) + chunk;
      pos := pos + |chunk|;
      assert sink.data + buffer[..pos] == old(Written()) + chunk;
      if pos == buffer.Length {
        Flush();
      }
    }

    /** Also called from inside a write that has just filled the buffer. */
    method Flush()
      requires pos <= buffer.Length && buffer.Length > 0
      modifies this, sink
      ensures Valid() && pos == 0
      ensures Written() == sink.data == old(sink.data + buffer[..pos])
    {
      if pos > 0 {
        sink.Write(buffer[..pos]);
        pos := 0;
      }
    }
  }
}
