/** What each BitReader operation does to the reader's buffer and offset,
    written as functions of the state before the call. The class in module
    Reader is proved to follow these functions step for step. */
module Cursor {
  import opened Values
  import opened ByteOrder
  import opened Integers

  /** The `opts` of `eat`: either plain bytes, or `integer: true` with
      `signed` (false only for `signed: false`) and an optional `endian`. */
  datatype EatOptions = Raw | Integer(signed: bool, endian: Option<string>)

  /** `amount || 1`: a falsy amount (0 or omitted, written 0) asks for one byte. */
  function Amount(n: nat): (a: nat)
    ensures n == 0 ==> a == 1
    ensures n >= 1 ==> a == n
  {
    if n == 0 then 1 else n
  }

  /** A truthy optional string: given and not "". */
  predicate Given(s: Option<string>)
  {
    s.Some? && s.value != ""
  }

  function Min(a: int, b: int): int
  {
    if a <= b then a else b
  }

  /** The byte order an integer `eat` reads in: the per-call `endian` if one
      was given, else the reader's `endianness`. */
  function OrderFor(opts: EatOptions, dflt: Endian): Endian
    requires opts.Integer?
  {
    if Given(opts.endian) && Interpret(opts.endian.value).Some?
    then Interpret(opts.endian.value).value
    else dflt
  }

  /** The integer branch of `eat` on the slice it has already consumed:
      the width check, then the per-call byte order, then Node's read, which
      throws a RangeError itself when the slice is shorter than the width. */
  function IntegerValue(slice: seq<Byte>, n: nat, opts: EatOptions, dflt: Endian): (r: Outcome<Value>)
    requires opts.Integer? && 1 <= |slice| <= Amount(n)
    ensures Amount(n) !in {1, 2, 4} ==> r == Throw(RangeError)
    ensures Amount(n) in {1, 2, 4} && Given(opts.endian) && Interpret(opts.endian.value).None? ==>
      r == Throw(TypeError)
    ensures Amount(n) in {1, 2, 4} && !(Given(opts.endian) && Interpret(opts.endian.value).None?) ==>
      r == if |slice| < Amount(n) then Throw(RangeError) else Ok(Int(Read(slice, opts.signed, OrderFor(opts, dflt))))
  {
    var w := Amount(n);
    if w !in {1, 2, 4} then Throw(RangeError)
    else if Given(opts.endian) && Interpret(opts.endian.value).None? then Throw(TypeError)
    else if |slice| < w then Throw(RangeError)
    else Ok(Int(Read(slice, opts.signed, OrderFor(opts, dflt))))
  }

  /** `eat(n, opts)` on a reader holding `buf` at offset `off` whose default
      order is `dflt`: what it returns or throws, and the offset after it. */
  function Eat(buf: seq<Byte>, off: nat, n: nat, opts: EatOptions, dflt: Endian): (res: (Outcome<Value>, nat))
    requires off <= |buf|
    ensures off <= res.1 <= |buf|
    ensures res.0 == Ok(Null) <==> off == |buf|
    ensures off == |buf| ==> res.1 == off
    ensures off < |buf| ==> res.1 - off == Min(Amount(n), |buf| - off)
    ensures opts.Raw? && off < |buf| ==> res.0 == Ok(Bytes(buf[off..res.1])) && |buf[off..res.1]| >= 1
    ensures opts.Integer? && off < |buf| ==> res.0 == IntegerValue(buf[off..res.1], n, opts, dflt)
  {
    if off >= |buf| then (Ok(Null), off)
    else
      var end := if off + Amount(n) >= |buf| then |buf| else off + Amount(n);
      var slice := buf[off..end];
      if opts.Integer? then (IntegerValue(slice, n, opts, dflt), end)
      else (Ok(Bytes(slice)), end)
  }

  /** An integer `eat` of a full 1-, 2- or 4-byte slice with a usable byte
      order returns the slice's two's-complement (or unsigned) value and
      consumes exactly that slice. */
  lemma EatInteger(buf: seq<Byte>, off: nat, n: nat, opts: EatOptions, dflt: Endian)
    requires opts.Integer? && n in {1, 2, 4} && off + n <= |buf|
    requires !(Given(opts.endian) && Interpret(opts.endian.value).None?)
    ensures Eat(buf, off, n, opts, dflt) ==
      (Ok(Int(Read(buf[off..off + n], opts.signed, OrderFor(opts, dflt)))), off + n)
  {
  }

  /** `rewind(k)`: a falsy k (written 0) goes back to the start, any other k
      goes back k bytes. */
  function Rewind(off: nat, k: nat): (r: nat)
    requires k <= off
    ensures k == 0 ==> r == 0
    ensures k > 0 ==> r + k == off
  {
    if k == 0 then 0 else off - k
  }

  /** Rewinding after `eat(n)` in `peak(n)` stays at or after the start of the
      buffer: either `eat` threw (and `peak` never rewinds), or n is falsy, or
      n bytes lie before the offset `eat` left. */
  ghost predicate PeakRewindable(buf: seq<Byte>, off: nat, n: nat, opts: EatOptions, dflt: Endian)
    requires off <= |buf|
  {
    var (r, after) := Eat(buf, off, n, opts, dflt);
    r.Throw? || n <= after
  }

  /** `peak(n, opts)`: `eat(n, opts)`, then `rewind(n)` unless `eat` threw. */
  function Peak(buf: seq<Byte>, off: nat, n: nat, opts: EatOptions, dflt: Endian): (res: (Outcome<Value>, nat))
    requires off <= |buf|
    requires PeakRewindable(buf, off, n, opts, dflt)
    ensures res.0 == Eat(buf, off, n, opts, dflt).0
    ensures res.1 <= |buf|
    ensures res.0.Throw? ==> res.1 == Eat(buf, off, n, opts, dflt).1
    ensures res.0.Ok? && n == 0 ==> res.1 == 0
    ensures res.0.Ok? && n >= 1 ==> res.1 + n == Eat(buf, off, n, opts, dflt).1
  {
    var (r, after) := Eat(buf, off, n, opts, dflt);
    if r.Throw? then (r, after) else (r, Rewind(after, n))
  }

  /** `peak(n)` with n bytes still available returns what `eat(n)` returns
      and leaves the offset where it was; when the integer `eat` throws, the
      offset stays where `eat` moved it. */
  lemma PeakKeepsPosition(buf: seq<Byte>, off: nat, n: nat, opts: EatOptions, dflt: Endian)
    requires 1 <= n && off + n <= |buf|
    ensures PeakRewindable(buf, off, n, opts, dflt)
    ensures Peak(buf, off, n, opts, dflt).0 == Eat(buf, off, n, opts, dflt).0
    ensures Peak(buf, off, n, opts, dflt).0.Ok? ==> Peak(buf, off, n, opts, dflt).1 == off
    ensures Peak(buf, off, n, opts, dflt).0.Throw? ==> Peak(buf, off, n, opts, dflt).1 == off + n
  {
  }

  /** `peak()` without an amount eats one byte and then rewinds with a falsy
      amount, which sends the offset back to the start of the buffer. */
  lemma PeakWithoutAmountRestarts(buf: seq<Byte>, off: nat, opts: EatOptions, dflt: Endian)
    requires off <= |buf|
    ensures PeakRewindable(buf, off, 0, opts, dflt)
    ensures Peak(buf, off, 0, opts, dflt).0.Ok? ==> Peak(buf, off, 0, opts, dflt).1 == 0
  {
  }

  /** `peak(n)` with fewer than n bytes left still rewinds by the full n: the
      offset ends n bytes before the end of the buffer, behind where it
      started. At the very end this happens with a null result. */
  lemma PeakOvershoots(buf: seq<Byte>, off: nat, n: nat, opts: EatOptions, dflt: Endian)
    requires off <= |buf| && 1 <= n && off + n > |buf|
    requires PeakRewindable(buf, off, n, opts, dflt)
    requires Eat(buf, off, n, opts, dflt).0.Ok?
    ensures Peak(buf, off, n, opts, dflt).1 == |buf| - n < off
    ensures off == |buf| ==> Peak(buf, off, n, opts, dflt).0 == Ok(Null)
  {
  }

  // ---------------------------------------------------------------------------
  // eatString

  /** The separator argument of `eatString`, by the JavaScript type of the
      value passed: omitted, an integral number, a one-character string, or a
      value for which `isNaN` holds (NaN, an object, a non-numeric string). */
  datatype SepArg = Undefined | Number(n: int) | Char(c: char) | NotANumber

  /** The validation at the head of `eatString`: omitted means byte 0, a
      one-character string means its character code, a value that is not a
      number is a TypeError, and a code outside [0, 255] is a RangeError. A
      character outside the Basic Multilingual Plane is two UTF-16 units long
      in JavaScript, so it is not a one-character string there. */
  function Separator(arg: SepArg): (r: Outcome<Byte>)
    ensures r == Throw(TypeError) <==> arg.NotANumber? || (arg.Char? && arg.c as int >= 0x1_0000)
    ensures arg.Undefined? ==> r == Ok(0)
    ensures arg.Number? ==> r == (if 0 <= arg.n <= 255 then Ok(arg.n) else Throw(RangeError))
    ensures arg.Char? && arg.c as int < 0x1_0000 ==>
      r == (if arg.c as int <= 255 then Ok(arg.c as int) else Throw(RangeError))
  {
    var code: Outcome<int> :=
      match arg
      case Undefined => Ok(0)
      case Number(n) => Ok(n)
      case Char(c) => if (c as int) < 0x1_0000 then Ok(c as int) else Throw(TypeError)
      case NotANumber => Throw(TypeError);
    if code.Throw? then Throw(code.error)
    else if code.value < 0 || code.value > 255 then Throw(RangeError)
    else Ok(code.value)
  }

  /** The offset after `eatString`'s loop, which eats one byte at a time
      until the byte it ate is the separator or `eat` returns null. */
  function ScanEnd(buf: seq<Byte>, i: nat, sep: Byte): (j: nat)
    requires i <= |buf|
    ensures i <= j <= |buf|
    ensures j == i <==> i == |buf|
    ensures forall k :: i <= k < j - 1 ==> buf[k] != sep
    ensures j < |buf| ==> buf[j - 1] == sep
    ensures sep in buf[i..] ==> j < |buf| || buf[|buf| - 1] == sep
    decreases |buf| - i
  {
    if i == |buf| then i
    else if buf[i] == sep then i + 1
    else
      var j := ScanEnd(buf, i + 1, sep);
      assert buf[i..] == [buf[i]] + buf[i + 1..];
      j
  }

  /** `eatString` once the separator is valid: the bytes of the returned
      string (`None` for `null`) and the offset after the call. */
  function EatString(buf: seq<Byte>, off: nat, sep: Byte): (res: (Option<seq<Byte>>, nat))
    requires off <= |buf|
    ensures res.1 == ScanEnd(buf, off, sep)
    ensures res.0 == None <==> off == |buf|
    ensures res.1 < |buf| ==> res.0 == Some(buf[off..res.1 - 1]) && sep !in res.0.value
    ensures off < |buf| && res.1 == |buf| ==> res.0 == Some(buf[off..])
  {
    var end := ScanEnd(buf, off, sep);
    if off == end then (None, end)
    else if end != |buf| then (Some(buf[off..end - 1]), end)
    else
      assert buf[off..end] == buf[off..];
      (Some(buf[off..end]), end)
  }

  /** A field followed by the separator is eaten whole, separator included;
      the separator is cut from the result unless it is the buffer's last
      byte, where it is kept. */
  lemma {:induction false} EatStringField(buf: seq<Byte>, off: nat, field: seq<Byte>, sep: Byte)
    requires off + |field| < |buf|
    requires buf[off..off + |field| + 1] == field + [sep]
    requires sep !in field
    ensures EatString(buf, off, sep).1 == off + |field| + 1
    ensures EatString(buf, off, sep).0 ==
      Some(if off + |field| + 1 < |buf| then field else field + [sep])
  {
    ScanField(buf, off, field, sep);
    assert buf[off..off + |field|] == buf[off..off + |field| + 1][..|field|];
  }

  lemma {:induction false} ScanField(buf: seq<Byte>, off: nat, field: seq<Byte>, sep: Byte)
    requires off + |field| < |buf|
    requires buf[off..off + |field| + 1] == field + [sep]
    requires sep !in field
    ensures ScanEnd(buf, off, sep) == off + |field| + 1
    decreases |field|
  {
    assert buf[off] == (field + [sep])[0];
    if field != [] {
      assert buf[off + 1..off + |field| + 1] == field[1..] + [sep];
      ScanField(buf, off + 1, field[1..], sep);
    }
  }

  /** Without a separator ahead, `eatString` returns the rest of the buffer. */
  lemma EatStringToEnd(buf: seq<Byte>, off: nat, sep: Byte)
    requires off < |buf| && sep !in buf[off..]
    ensures EatString(buf, off, sep) == (Some(buf[off..]), |buf|)
  {
  }

  // ---------------------------------------------------------------------------
  // eatRemaining

  /** `eatRemaining`'s `opts`: a chunk size (0 when falsy) and the options
      it forwards to every `eat`. */
  datatype RestOptions = RestOptions(chunkSize: nat, eat: EatOptions)

  /** Prepends a chunk to the list of an outcome that did not throw. */
  function Cons(v: Value, rest: Outcome<seq<Value>>): Outcome<seq<Value>>
  {
    if rest.Ok? then Ok([v] + rest.value) else rest
  }

  /** `while ((value = this.eat(c, opts))) chunks.push(value)`: the chunks
      collected (or the exception that ends the loop) and the final offset. */
  function Chunked(buf: seq<Byte>, off: nat, c: nat, opts: EatOptions, dflt: Endian): (res: (Outcome<seq<Value>>, nat))
    requires off <= |buf|
    ensures off <= res.1 <= |buf|
    ensures res.0.Ok? ==> forall k :: 0 <= k < |res.0.value| ==> Truthy(res.0.value[k])
    ensures res.0.Ok? && opts.Integer? ==> forall k :: 0 <= k < |res.0.value| ==> res.0.value[k].Int?
    ensures opts.Raw? ==> res.0.Ok? && res.1 == |buf|
    decreases |buf| - off
  {
    var (v, next) := Eat(buf, off, c, opts, dflt);
    if v.Throw? then (Throw(v.error), next)
    else if !Truthy(v.value) then (Ok([]), next)
    else
      var (rest, last) := Chunked(buf, next, c, opts, dflt);
      (Cons(v.value, rest), last)
  }

  /** One turn of the integer chunk loop over a full c-byte slice: a slice
      that reads as 0 is falsy and ends the loop with the offset past it;
      any other value is collected in front of the rest. */
  lemma IntegerChunkStep(buf: seq<Byte>, off: nat, c: nat, opts: EatOptions, dflt: Endian)
    requires opts.Integer? && c in {1, 2, 4} && off + c <= |buf|
    requires !(Given(opts.endian) && Interpret(opts.endian.value).None?)
    ensures var v := Read(buf[off..off + c], opts.signed, OrderFor(opts, dflt));
      var (rest, last) := Chunked(buf, off + c, c, opts, dflt);
      Chunked(buf, off, c, opts, dflt) == if v == 0 then (Ok([]), off + c) else (Cons(Int(v), rest), last)
  {
    EatInteger(buf, off, c, opts, dflt);
  }

  /** How the integer chunk loop ends other than at a zero: at the end of the
      buffer with what was collected; with a RangeError for a width other
      than 1, 2 or 4 or for a tail shorter than c; with a TypeError for an
      unrecognised `endian`. An exception drops the chunks collected. */
  lemma IntegerChunkEnds(buf: seq<Byte>, off: nat, c: nat, opts: EatOptions, dflt: Endian)
    requires opts.Integer? && off <= |buf|
    ensures off == |buf| ==> Chunked(buf, off, c, opts, dflt) == (Ok([]), off)
    ensures off < |buf| && Amount(c) !in {1, 2, 4} ==>
      Chunked(buf, off, c, opts, dflt) == (Throw(RangeError), Min(off + Amount(c), |buf|))
    ensures off < |buf| && Amount(c) in {1, 2, 4} && Given(opts.endian) && Interpret(opts.endian.value).None? ==>
      Chunked(buf, off, c, opts, dflt) == (Throw(TypeError), Min(off + Amount(c), |buf|))
    ensures 0 < |buf| - off < c && c in {1, 2, 4} && !(Given(opts.endian) && Interpret(opts.endian.value).None?) ==>
      Chunked(buf, off, c, opts, dflt) == (Throw(RangeError), |buf|)
  {
  }

  /** Flattening a list of chunks back into one byte sequence. */
  function Concat(chunks: seq<seq<Byte>>): seq<Byte>
  {
    if chunks == [] then [] else chunks[0] + Concat(chunks[1..])
  }

  /** A byte sequence cut into pieces of c bytes, the last possibly shorter:
      the pieces join back into the sequence, there are ceil(|s| / c) of
      them (stated without division), and each is non-empty. */
  function Split(s: seq<Byte>, c: nat): (r: seq<seq<Byte>>)
    requires c >= 1
    ensures Concat(r) == s
    ensures (|r| - 1) * c < |s| <= |r| * c
    ensures forall k :: 0 <= k < |r| ==> 1 <= |r[k]| <= c
    ensures forall k :: 0 <= k < |r| - 1 ==> |r[k]| == c
    decreases |s|
  {
    if s == [] then []
    else if |s| <= c then
      ConcatCons(s, []);
      [s]
    else
      var rest := Split(s[c..], c);
      CountStep(|rest|, c, |s| - c);
      ConcatCons(s[..c], rest);
      assert s[..c] + s[c..] == s;
      [s[..c]] + rest
  }

  lemma ConcatCons(x: seq<Byte>, rest: seq<seq<Byte>>)
    ensures Concat([x] + rest) == x + Concat(rest)
  {
    assert ([x] + rest)[1..] == rest;
  }

  /** One more chunk of c bytes keeps the chunk count at the ceiling. */
  lemma CountStep(k: int, c: nat, m: int)
    requires (k - 1) * c < m <= k * c
    ensures k * c < m + c <= (k + 1) * c
  {
  }

  function AsBuffers(chunks: seq<seq<Byte>>): (r: seq<Value>)
  {
    seq(|chunks|, k requires 0 <= k < |chunks| => Bytes(chunks[k]))
  }

  /** One turn of the raw chunk loop: a chunk of up to c bytes, then the rest. */
  lemma RawChunkStep(buf: seq<Byte>, off: nat, c: nat, dflt: Endian)
    requires c >= 1 && off < |buf|
    ensures var next := Min(off + c, |buf|);
      Chunked(buf, off, c, Raw, dflt) ==
        (Cons(Bytes(buf[off..next]), Chunked(buf, next, c, Raw, dflt).0), Chunked(buf, next, c, Raw, dflt).1)
  {
  }

  lemma AsBuffersCons(x: seq<Byte>, rest: seq<seq<Byte>>)
    ensures AsBuffers([x] + rest) == [Bytes(x)] + AsBuffers(rest)
  {
  }

  /** Raw chunked `eatRemaining` cuts what is left into chunks of c bytes and
      drains the buffer. */
  lemma {:induction false} RawChunks(buf: seq<Byte>, off: nat, c: nat, dflt: Endian)
    requires c >= 1 && off <= |buf|
    ensures Chunked(buf, off, c, Raw, dflt) == (Ok(AsBuffers(Split(buf[off..], c))), |buf|)
    decreases |buf| - off
  {
    if off < |buf| {
      RawChunks(buf, Min(off + c, |buf|), c, dflt);
      RawChunksStep(buf, off, c, dflt);
    } else {
      assert buf[off..] == [] && AsBuffers([]) == [];
    }
  }

  /** The inductive step of RawChunks: one more chunk in front. */
  lemma RawChunksStep(buf: seq<Byte>, off: nat, c: nat, dflt: Endian)
    requires c >= 1 && off < |buf|
    requires var next := Min(off + c, |buf|);
      Chunked(buf, next, c, Raw, dflt) == (Ok(AsBuffers(Split(buf[next..], c))), |buf|)
    ensures Chunked(buf, off, c, Raw, dflt) == (Ok(AsBuffers(Split(buf[off..], c))), |buf|)
  {
    var s, next := buf[off..], Min(off + c, |buf|);
    RawChunkStep(buf, off, c, dflt);
    if |s| <= c {
      assert next == |buf| && buf[next..] == [] && buf[off..next] == s;
      assert Split(s, c) == [s] && Split(buf[next..], c) == [];
      assert AsBuffers([]) == [] && [s] + [] == [s];
      AsBuffersCons(s, []);
    } else {
      assert s[..c] == buf[off..next] && s[c..] == buf[next..];
      assert Split(s, c) == [s[..c]] + Split(s[c..], c);
      AsBuffersCons(s[..c], Split(s[c..], c));
    }
  }
}
