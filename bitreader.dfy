/** The BitReader object: an append-only byte buffer, a read offset into it
    and a default byte order, updated in place by its methods. Each method is
    proved to move the state exactly as the matching function of module
    Cursor says. */
module Reader {
  import opened Values
  import opened ByteOrder
  import opened Integers
  import opened Cursor

  class BitReader {
    /** `_buffer`: every byte written so far. */
    var buffer: seq<Byte>
    /** `_offset`: how many bytes of `buffer` have been consumed. */
    var offset: nat
    /** `endianness`: the order integer reads use unless told otherwise. */
    var endianness: Endian

    /** The offset never passes the end of the buffer. */
    ghost predicate Valid()
      reads this
    {
      offset <= |buffer|
    }

    /** The object before `data` and `opts` are applied: an empty buffer. */
    constructor ()
      ensures Valid() && buffer == [] && offset == 0 && endianness == BE
    {
      buffer := [];
      offset := 0;
      endianness := BE;
    }

    /** `BitReader(data, opts)`: writes `data`, then sets the order given by
        `opts.endian` (or 'BE' when it is falsy), throwing a TypeError for an
        unrecognised one, and starts reading at offset 0. */
    static method Create(data: seq<Byte>, endian: Option<string>) returns (r: Outcome<BitReader>)
      ensures var e := Interpret(if Given(endian) then endian.value else Name(BE));
        (e.None? ==> r == Throw(TypeError)) &&
        (e.Some? ==> r.Ok? && fresh(r.value) && r.value.Valid() &&
                     r.value.buffer == data && r.value.offset == 0 && r.value.endianness == e.value)
    {
      var reader := new BitReader();
      reader.Write(data);
      var thrown := reader.SetEndian(if Given(endian) then endian.value else Name(BE));
      if thrown.Some? {
        return Throw(thrown.value);
      }
      reader.offset := 0;
      return Ok(reader);
    }

    /** `setEndian(end)`: a recognised name sets the default order; anything
        else throws a TypeError and leaves the order as it was. */
    method SetEndian(end: string) returns (thrown: Option<Error>)
      requires Valid()
      modifies this
      ensures Valid()
      ensures Interpret(end).Some? ==> thrown == None && endianness == Interpret(end).value
      ensures Interpret(end).None? ==> thrown == Some(TypeError) && endianness == old(endianness)
      ensures buffer == old(buffer) && offset == old(offset)
    {
      var e := Interpret(end);
      if e.Some? {
        endianness := e.value;
        return None;
      }
      return Some(TypeError);
    }

    /** `write(data)`: appends `data`; what was written before and the offset
        are untouched. */
    method Write(data: seq<Byte>)
      requires Valid()
      modifies this
      ensures Valid()
      ensures buffer == old(buffer) + data
      ensures buffer[..|old(buffer)|] == old(buffer)
      ensures offset == old(offset) && endianness == old(endianness)
    {
      buffer := buffer + data;
    }

    /** `eat(amount, opts)`. The offset is advanced before the integer checks,
        so a thrown RangeError or TypeError leaves it moved. A per-call
        `endian` never changes `endianness`. */
    method Eat(amount: nat, opts: EatOptions) returns (r: Outcome<Value>)
      requires Valid()
      modifies this
      ensures Valid()
      ensures (r, offset) == Cursor.Eat(old(buffer), old(offset), amount, opts, old(endianness))
      ensures buffer == old(buffer) && endianness == old(endianness)
    {
      var n := if amount == 0 then 1 else amount;
      if offset >= |buffer| {
        return Ok(Null);
      }
      var start := offset;
      var end := offset + n;
      if end >= |buffer| {
        end := |buffer|;
      }
      var value := buffer[start..end];
      offset := end;
      if opts.Integer? {
        if n !in {1, 2, 4} {
          return Throw(RangeError);
        }
        var endian := endianness;
        if Given(opts.endian) {
          var e := Interpret(opts.endian.value);
          if e.None? {
            return Throw(TypeError);
          }
          endian := e.value;
        }
        if |value| < n {
          return Throw(RangeError);
        }
        return Ok(Int(Read(value, opts.signed, endian)));
      }
      return Ok(Bytes(value));
    }

    /** `eatInt(amount, endian)`: a signed integer `eat`. */
    method EatInt(amount: nat, endian: Option<string>) returns (r: Outcome<Value>)
      requires Valid()
      modifies this
      ensures Valid()
      ensures (r, offset) == Cursor.Eat(old(buffer), old(offset), amount, Integer(true, endian), old(endianness))
      ensures buffer == old(buffer) && endianness == old(endianness)
    {
      r := Eat(amount, Integer(true, endian));
    }

    /** `eatUInt(amount, endian)`: an unsigned integer `eat`. */
    method EatUInt(amount: nat, endian: Option<string>) returns (r: Outcome<Value>)
      requires Valid()
      modifies this
      ensures Valid()
      ensures (r, offset) == Cursor.Eat(old(buffer), old(offset), amount, Integer(false, endian), old(endianness))
      ensures buffer == old(buffer) && endianness == old(endianness)
    {
      r := Eat(amount, Integer(false, endian));
    }

    /** `eatBool()`: `!!eatUInt(1)`, so an exhausted buffer (null) and a zero
        byte both read as false; any other byte is true and consumed. */
    method EatBool() returns (b: bool)
      requires Valid()
      modifies this
      ensures Valid()
      ensures b == (old(offset) < |buffer| && buffer[old(offset)] != 0)
      ensures offset == if old(offset) < |buffer| then old(offset) + 1 else old(offset)
      ensures buffer == old(buffer) && endianness == old(endianness)
    {
      ghost var at := offset;
      var v := EatUInt(1, None);
      if at < |buffer| {
        var slice := buffer[at..at + 1];
        assert slice[..0] == [] && slice[1..] == [];
        assert Read(slice, false, endianness) == buffer[at];
      }
      b := v.Ok? && Truthy(v.value);
    }

    /** `eats(amount)`: the bytes `eat(amount)` returns, for conversion to a
        string, or `None` for `null`. */
    method Eats(amount: nat) returns (s: Option<seq<Byte>>)
      requires Valid()
      modifies this
      ensures Valid()
      ensures var (v, after) := Cursor.Eat(old(buffer), old(offset), amount, Raw, old(endianness));
        offset == after && s == if v.value.Bytes? then Some(v.value.bytes) else None
      ensures buffer == old(buffer) && endianness == old(endianness)
    {
      var v := Eat(amount, Raw);
      s := if v.value.Bytes? then Some(v.value.bytes) else None;
    }

    /** `rewind(amount)`: back `amount` bytes, or to the start when `amount`
        is falsy (written 0). */
    method Rewind(amount: nat)
      requires Valid() && amount <= offset
      modifies this
      ensures Valid()
      ensures offset == Cursor.Rewind(old(offset), amount)
      ensures buffer == old(buffer) && endianness == old(endianness)
    {
      var k := amount;
      if k == 0 {
        k := Position();
      }
      offset := offset - k;
    }

    /** `position()`. */
    method Position() returns (p: nat)
      ensures p == offset
    {
      return offset;
    }

    /** `peak(amount, opts)`: `eat` then `rewind` by the same amount; the
        rewind is skipped when `eat` throws. */
    method Peak(amount: nat, opts: EatOptions) returns (r: Outcome<Value>)
      requires Valid() && PeakRewindable(buffer, offset, amount, opts, endianness)
      modifies this
      ensures Valid()
      ensures (r, offset) == Cursor.Peak(old(buffer), old(offset), amount, opts, old(endianness))
      ensures buffer == old(buffer) && endianness == old(endianness)
    {
      r := Eat(amount, opts);
      if r.Throw? {
        return;
      }
      Rewind(amount);
    }

    /** `peaks(amount)`: the bytes `peak(amount)` returns, or `None` for `null`. */
    method Peaks(amount: nat) returns (s: Option<seq<Byte>>)
      requires Valid() && PeakRewindable(buffer, offset, amount, Raw, endianness)
      modifies this
      ensures Valid()
      ensures var (v, after) := Cursor.Peak(old(buffer), old(offset), amount, Raw, old(endianness));
        offset == after && s == if v.value.Bytes? then Some(v.value.bytes) else None
      ensures buffer == old(buffer) && endianness == old(endianness)
    {
      var v := Peak(amount, Raw);
      s := if v.value.Bytes? then Some(v.value.bytes) else None;
    }

    /** `eatString(sep)`: the separator is validated before the offset moves;
        then one byte is eaten at a time until the separator or the end. */
    method EatString(arg: SepArg) returns (r: Outcome<Option<seq<Byte>>>)
      requires Valid()
      modifies this
      ensures Valid()
      ensures Separator(arg).Throw? ==> r == Throw(Separator(arg).error) && offset == old(offset)
      ensures Separator(arg).Ok? ==>
        var (s, after) := Cursor.EatString(old(buffer), old(offset), Separator(arg).value);
        r == Ok(s) && offset == after
      ensures buffer == old(buffer) && endianness == old(endianness)
    {
      var sep := Separator(arg);
      if sep.Throw? {
        return Throw(sep.error);
      }
      var start := offset;
      SkipPast(sep.value);
      var end := offset;
      if start == end {
        return Ok(None);
      }
      if end != |buffer| {
        end := end - 1;
      }
      return Ok(Some(buffer[start..end]));
    }

    /** The loop of `eatString`: one byte is eaten at a time until the byte
        eaten is the separator or nothing is left. */
    method SkipPast(sep: Byte)
      requires Valid()
      modifies this
      ensures Valid()
      ensures offset == ScanEnd(old(buffer), old(offset), sep)
      ensures buffer == old(buffer) && endianness == old(endianness)
    {
      ghost var prev := offset;
      var eaten := Eat(0, Raw);
      var value := eaten.value;
      while value.Bytes? && value.bytes[0] != sep
        invariant Valid() && buffer == old(buffer) && endianness == old(endianness)
        invariant old(offset) <= prev <= |buffer|
        invariant offset == Cursor.Eat(buffer, prev, 0, Raw, endianness).1
        invariant value == Cursor.Eat(buffer, prev, 0, Raw, endianness).0.value
        invariant ScanEnd(buffer, old(offset), sep) == ScanEnd(buffer, prev, sep)
        decreases |buffer| - prev
      {
        ScanStep(buffer, prev, sep, endianness);
        prev := offset;
        eaten := Eat(0, Raw);
        value := eaten.value;
      }
      ScanStop(buffer, prev, sep, endianness);
    }

    /** `eatRemaining(opts)` (also `eatRest`): without a chunk size, all that
        is left (or `null`) and the offset moves to the end; with one, `eat`
        is called with it and `opts` until it returns a falsy value. */
    method EatRemaining(opts: RestOptions) returns (r: Outcome<Value>)
      requires Valid()
      modifies this
      ensures Valid() && buffer == old(buffer) && endianness == old(endianness)
      ensures opts.chunkSize == 0 ==>
        (offset == |buffer| && r == Ok(if old(offset) == |buffer| then Null else Bytes(buffer[old(offset)..])))
      ensures opts.chunkSize > 0 ==>
        var (chunks, after) := Chunked(old(buffer), old(offset), opts.chunkSize, opts.eat, old(endianness));
        offset == after && r == if chunks.Ok? then Ok(Array(chunks.value)) else Throw(chunks.error)
    {
      if opts.chunkSize == 0 {
        var value := buffer[offset..];
        offset := |buffer|;
        if |value| == 0 {
          return Ok(Null);
        }
        return Ok(Bytes(value));
      }
      var chunks: seq<Value> := [];
      ghost var prev := offset;
      var v := Eat(opts.chunkSize, opts.eat);
      ConsAllNone(Chunked(buffer, prev, opts.chunkSize, opts.eat, endianness).0);
      while v.Ok? && Truthy(v.value)
        invariant Valid() && buffer == old(buffer) && endianness == old(endianness)
        invariant prev <= |buffer|
        invariant (v, offset) == Cursor.Eat(buffer, prev, opts.chunkSize, opts.eat, endianness)
        invariant var (rest, after) := Chunked(buffer, prev, opts.chunkSize, opts.eat, endianness);
          Chunked(buffer, old(offset), opts.chunkSize, opts.eat, endianness) == (ConsAll(chunks, rest), after)
        decreases |buffer| - prev
      {
        ConsAllStep(chunks, v.value, Chunked(buffer, offset, opts.chunkSize, opts.eat, endianness).0);
        chunks := chunks + [v.value];
        prev := offset;
        v := Eat(opts.chunkSize, opts.eat);
      }
      if v.Throw? {
        return Throw(v.error);
      }
      assert chunks + [] == chunks;
      return Ok(Array(chunks));
    }

    /** `getBuffer()`. */
    method GetBuffer() returns (b: seq<Byte>)
      ensures b == buffer
    {
      return buffer;
    }

    /** `remaining()`: bytes not yet consumed. */
    method Remaining() returns (n: nat)
      requires Valid()
      ensures n == |buffer| - offset
      ensures offset + n == |buffer|
    {
      var p := Position();
      return |buffer| - p;
    }
  }

  /** One byte that is not the separator: the scan goes on after it. */
  lemma ScanStep(buf: seq<Byte>, i: nat, sep: Byte, dflt: Endian)
    requires i <= |buf|
    requires var v := Cursor.Eat(buf, i, 0, Raw, dflt).0.value; v.Bytes? && v.bytes[0] != sep
    ensures i < |buf| && buf[i] != sep && ScanEnd(buf, i, sep) == ScanEnd(buf, i + 1, sep)
    ensures Cursor.Eat(buf, i, 0, Raw, dflt).1 == i + 1
  {
  }

  /** Where the scan stops: at the end, or just after the separator. */
  lemma ScanStop(buf: seq<Byte>, i: nat, sep: Byte, dflt: Endian)
    requires i <= |buf|
    requires var v := Cursor.Eat(buf, i, 0, Raw, dflt).0.value; !(v.Bytes? && v.bytes[0] != sep)
    ensures ScanEnd(buf, i, sep) == Cursor.Eat(buf, i, 0, Raw, dflt).1
  {
  }

  /** The chunks already collected, in front of the outcome of the rest of
      the loop. */
  function ConsAll(chunks: seq<Value>, rest: Outcome<seq<Value>>): Outcome<seq<Value>>
  {
    if rest.Ok? then Ok(chunks + rest.value) else rest
  }

  lemma ConsAllNone(rest: Outcome<seq<Value>>)
    ensures ConsAll([], rest) == rest
  {
    if rest.Ok? {
      assert [] + rest.value == rest.value;
    }
  }

  lemma ConsAllStep(chunks: seq<Value>, v: Value, rest: Outcome<seq<Value>>)
    ensures ConsAll(chunks, Cons(v, rest)) == ConsAll(chunks + [v], rest)
  {
    if rest.Ok? {
      assert chunks + ([v] + rest.value) == (chunks + [v]) + rest.value;
    }
  }
}
