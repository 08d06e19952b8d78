/** The byte streams the codec reads frames from and writes frames to: a reader
    with `bytes.Reader` semantics and a writer that appends, whose successive
    `Write` calls may be made to fail by a script of injected errors. */
module Streams {
  import opened Base

  /** A reader over a fixed byte sequence and a cursor. A `Read` returns up to
      the requested count and reports EOF only when nothing is left. */
  class Reader {
    var data: seq<byte>
    var pos: nat

    ghost predicate Valid()
      reads this
    {
      pos <= |data|
    }

    /** The bytes not yet read. */
    function Rest(): seq<byte>
      reads this
      requires Valid()
    {
      data[pos..]
    }

    constructor (data: seq<byte>)
      ensures Valid() && this.data == data && pos == 0
    {
      this.data := data;
      pos := 0;
    }

    /** `Read(buf[from:])`: copies as many of the remaining bytes as fit into
        `buf[from..]` and advances the cursor; the rest of `buf` is untouched. */
    method Read(buf: array<byte>, from: nat) returns (n: nat, err: Option<Error>)
      requires Valid() && from <= buf.Length
      modifies this, buf
      ensures Valid() && data == old(data)
      ensures old(pos) == |data| ==> n == 0 && err == Some(EOF)
      ensures old(pos) < |data| ==> n == Min(buf.Length - from, |data| - old(pos)) && err == None
      ensures pos == old(pos) + n
      ensures buf[..] == old(buf[..from]) + data[old(pos)..pos] + old(buf[from + n..])
    {
      if pos == |data| {
        return 0, Some(EOF);
      }
      n := Min(buf.Length - from, |data| - pos);
      forall i | from <= i < from + n {
        buf[i] := data[pos + i - from];
      }
      pos := pos + n;
      err := None;
    }

    /** `io.ReadFull(r, buf)`: calls `Read` until `buf` is full or the stream
        ends. Nothing read is EOF; a partial read is an unexpected EOF. */
    method ReadFull(buf: array<byte>) returns (n: nat, err: Option<Error>)
      requires Valid()
      modifies this, buf
      ensures Valid() && data == old(data)
      ensures n == Min(buf.Length, |data| - old(pos)) && pos == old(pos) + n
      ensures buf[..n] == data[old(pos)..pos]
      ensures buf[n..] == old(buf[n..])
      ensures err == if n == buf.Length then None
                     else if n == 0 then Some(EOF)
                     else Some(UnexpectedEOF)
    {
      n, err := 0, None;
      while n < buf.Length && err == None
        invariant Valid() && data == old(data)
        invariant n <= buf.Length && pos == old(pos) + n
        invariant buf[..n] == data[old(pos)..pos]
        invariant buf[n..] == old(buf[n..])
        invariant err != None ==> err == Some(EOF) && pos == |data|
        invariant err == None && n < buf.Length ==> n == 0 || pos == |data| || n == buf.Length
        decreases buf.Length - n, if err == None then 1 else 0
      {
        var got, e := Read(buf, n);
        n, err := n + got, e;
      }
      if n >= buf.Length {
        err := None;
      } else if n > 0 && err == Some(EOF) {
        err := Some(UnexpectedEOF);
      }
    }
  }

  /** The first injected outcome of a script: the error the next `Write`
      returns, if any. */
  function NextFault(faults: seq<Option<Error>>): Option<Error> {
    if faults == [] then None else faults[0]
  }

  /** The script left once one `Write` has been made. */
  function AfterWrite(faults: seq<Option<Error>>): (rest: seq<Option<Error>>)
    ensures |rest| == if faults == [] then 0 else |faults| - 1
  {
    if faults == [] then [] else faults[1..]
  }

  /** A writer that appends. The i-th entry of `faults` is the outcome of the
      i-th `Write` still to come; once the script runs out, writes succeed. */
  class Writer {
    var data: seq<byte>
    var faults: seq<Option<Error>>

    constructor (faults: seq<Option<Error>>)
      ensures data == [] && this.faults == faults
    {
      data := [];
      this.faults := faults;
    }

    /** `w.Write(p)`: appends `p`, or returns the injected error and appends
        nothing. */
    method Write(p: seq<byte>) returns (err: Option<Error>)
      modifies this
      ensures err == NextFault(old(faults)) && faults == AfterWrite(old(faults))
      ensures data == if err == None then old(data) + p else old(data)
    {
      err := NextFault(faults);
      faults := AfterWrite(faults);
      if err == None {
        data := data + p;
      }
    }
  }
}
