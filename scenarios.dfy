/** Client code that replays the assertions of test/bitreader.test.js
    against the contracts of BitReader alone. */
module Scenarios {
  import opened Values
  import opened ByteOrder
  import opened Integers
  import opened Cursor
  import opened Reader

  /** The bytes of an ASCII string, as `Buffer(s)` produces them. */
  function Ascii(s: string): (b: seq<Byte>)
    requires forall i :: 0 <= i < |s| ==> s[i] as int < 128
    ensures |b| == |s| && forall i :: 0 <= i < |s| ==> b[i] == s[i] as int
  {
    seq(|s|, i requires 0 <= i < |s| => s[i] as int)
  }

  /** The integer vectors of the tests: [0x10, 0x80] as a signed big-endian
      16-bit number, [0x30, 0x20, 0x10, 0x80] as a signed big-endian 32-bit
      number, [0xf6] unsigned and [0xff, 0, 0, 0] little-endian; plus two
      extra vectors not among the tests' assertions, [0xff, 0, 0, 0] read
      big-endian signed and unsigned. */
  lemma ReadVectors()
    ensures Read([0x10, 0x80], true, BE) == 4224
    ensures Read([0x30, 0x20, 0x10, 0x80], true, BE) == 807407744
    ensures Read([0xf6], false, BE) == 246
    ensures Read([0xff, 0, 0, 0], true, LE) == 255
    ensures Read([0xff, 0, 0, 0], true, BE) == -16777216
    ensures Read([0xff, 0, 0, 0], false, BE) == 4278190080
  {
    assert Pow256(2) == 0x1_0000 && Pow256(4) == 0x1_0000_0000;
    assert SignBit(2) == 0x8000 && SignBit(4) == 0x8000_0000;
    var a: seq<Byte> := [0x30, 0x20, 0x10, 0x80];
    assert a[..3] == [0x30, 0x20, 0x10] && a[..3][..2] == [0x30, 0x20] && a[..3][..2][..1] == [0x30];
    assert BigEndian([0x30, 0x20]) == 0x3020;
    assert BigEndian([0x30, 0x20, 0x10]) == 0x30_2010;
    assert BigEndian(a) == 0x3020_1080;
    var b: seq<Byte> := [0xff, 0, 0, 0];
    assert b[..3] == [0xff, 0, 0] && b[..3][..2] == [0xff, 0] && b[..3][..2][..1] == [0xff];
    assert BigEndian([0xff, 0]) == 0xff00;
    assert BigEndian([0xff, 0, 0]) == 0xff_0000;
    assert BigEndian(b) == 0xff00_0000;
    assert b[1..] == [0, 0, 0] && b[1..][1..] == [0, 0] && b[1..][1..][1..] == [0];
  }

  method DefaultOrder()
  {
    NameRoundTrip(BE);
    var p := BitReader.Create(Ascii("lol"), None);
    assert p.Ok? && p.value.endianness == BE;
  }

  method NamedOrders()
  {
    InterpretVectors();
    var p := BitReader.Create(Ascii("lol"), Some("le"));
    assert p.Ok? && p.value.endianness == LE;
    p := BitReader.Create(Ascii("lol"), Some("little"));
    assert p.Ok? && p.value.endianness == LE;
    p := BitReader.Create(Ascii("lol"), Some("big"));
    assert p.Ok? && p.value.endianness == BE;
    p := BitReader.Create(Ascii("lol"), Some("huge"));
    assert p == Throw(TypeError);
  }

  method EatSlices()
  {
    var w, he, red := Ascii("w"), Ascii("he"), Ascii("re d");
    var data := w + he + red + Ascii("id you get your _____?");
    var p := new BitReader();
    p.Write(data);
    var first := p.Eat(1, Raw);
    assert first == Ok(Bytes(data[0..1])) && data[0..1] == w;
    var second := p.Eat(2, Raw);
    assert second == Ok(Bytes(data[1..3])) && data[1..3] == he;
    var third := p.Eat(4, Raw);
    assert third == Ok(Bytes(data[3..7])) && data[3..7] == red;
  }

  method EatMovesPosition()
  {
    var p := new BitReader();
    p.Write(Ascii("where did you get your _____?"));
    var _ := p.Eat(10, Raw);
    var pos := p.Position();
    assert pos == 10;
  }

  method EatPastTheEnd()
  {
    var data := Ascii("where did you get your _____?");
    var p := new BitReader();
    p.Write(data);
    var all := p.Eat(1000, Raw);
    assert all == Ok(Bytes(data[0..|data|])) && data[0..|data|] == data;
    var none := p.Eat(1000, Raw);
    assert none == Ok(Null);
    var left := p.Remaining();
    assert left == 0;
  }

  method LittleEndianDefault()
  {
    ReadVectors();
    InterpretVectors();
    var c := BitReader.Create([0xff, 0, 0, 0], Some("little"));
    var p := c.value;
    EatInteger(p.buffer, 0, 4, Integer(true, None), LE);
    assert p.buffer[0..4] == p.buffer;
    var v := p.Eat(4, Integer(true, None));
    assert v == Ok(Int(255)) && p.endianness == LE;
  }

  method LittleEndianOverride()
  {
    ReadVectors();
    InterpretVectors();
    var c := BitReader.Create([0xff, 0, 0, 0], Some("big"));
    var p := c.value;
    EatInteger(p.buffer, 0, 4, Integer(true, Some("little")), BE);
    assert p.buffer[0..4] == p.buffer;
    var v := p.Eat(4, Integer(true, Some("little")));
    assert v == Ok(Int(255)) && p.endianness == BE;
  }

  /** Extra vectors, not among the tests' assertions: [0xff, 0, 0, 0] read
      big-endian, signed and unsigned. */
  method BigEndianReads()
  {
    ReadVectors();
    var p := new BitReader();
    p.Write([0xff, 0, 0, 0]);
    assert p.buffer[0..4] == p.buffer;
    EatInteger(p.buffer, 0, 4, Integer(true, None), BE);
    var v := p.EatInt(4, None);
    assert v == Ok(Int(-16777216));
    p.Rewind(0);
    EatInteger(p.buffer, 0, 4, Integer(false, None), BE);
    v := p.EatUInt(4, None);
    assert v == Ok(Int(4278190080));
  }

  method SignedReads()
  {
    ReadVectors();
    var p := new BitReader();
    p.Write([0x10, 0x80]);
    assert p.buffer[0..2] == p.buffer;
    EatInteger(p.buffer, 0, 2, Integer(true, None), BE);
    var v := p.Eat(2, Integer(true, None));
    assert v == Ok(Int(4224));
    p := new BitReader();
    p.Write([0x30, 0x20, 0x10, 0x80]);
    assert p.buffer[0..4] == p.buffer;
    EatInteger(p.buffer, 0, 4, Integer(true, None), BE);
    v := p.EatInt(4, None);
    assert v == Ok(Int(807407744));
  }

  method UnsignedRead()
  {
    ReadVectors();
    var p := new BitReader();
    p.Write([0xf6]);
    assert p.buffer[0..1] == p.buffer;
    EatInteger(p.buffer, 0, 1, Integer(false, None), BE);
    var v := p.EatUInt(1, None);
    assert v == Ok(Int(246));
  }

  method WidthError()
  {
    var p := new BitReader();
    p.Write(seq(12, _ => 0xff));
    var v := p.Eat(3, Integer(true, None));
    assert v == Throw(RangeError);
    // the offset has already moved past the three bytes
    assert p.offset == 3;
  }

  method OrderError()
  {
    InterpretVectors();
    var p := new BitReader();
    p.Write(seq(12, _ => 0xff));
    var v := p.Eat(4, Integer(true, Some("massive")));
    assert v == Throw(TypeError);
  }

  method Bools()
  {
    var p := new BitReader();
    p.Write([0x01]);
    var b := p.EatBool();
    assert b;
    p := new BitReader();
    p.Write([0x00]);
    b := p.EatBool();
    assert !b;
    b := p.EatBool();
    assert !b;
  }

  method Rewinding()
  {
    var did := Ascii("did");
    var data := Ascii("where ") + did + Ascii(" you get your _____?");
    var p := new BitReader();
    p.Write(data);
    var _ := p.Eat(9, Raw);
    p.Rewind(3);
    var pos := p.Position();
    assert pos == 6;
    var again := p.Eat(3, Raw);
    assert again == Ok(Bytes(data[6..9])) && data[6..9] == did;
  }

  method PeekingFirst()
  {
    var w := Ascii("w");
    var data := w + Ascii("here did you get your _____?");
    var p := new BitReader();
    p.Write(data);
    var first := p.Peaks(0);
    assert first == Some(data[0..1]) && data[0..1] == w;
  }

  method PeekingAfterTheEnd()
  {
    var where := Ascii("where");
    var data := where + Ascii(" did you get your _____?");
    var p := new BitReader();
    p.Write(data);
    var _ := p.Eat(1024, Raw);
    var none := p.Peak(0, Raw);
    assert none == Ok(Null) && p.offset == 0;
    var five := p.Peak(5, Raw);
    assert five == Ok(Bytes(data[0..5])) && p.offset == 0;
    assert data[0..5] == where;
  }

  method PeekingIntegers()
  {
    ReadVectors();
    InterpretVectors();
    var p := new BitReader();
    p.Write([0xff, 0, 0, 0]);
    assert p.buffer[0..4] == p.buffer;
    EatInteger(p.buffer, 0, 4, Integer(true, Some("little")), BE);
    var v := p.Peak(4, Integer(true, Some("little")));
    assert v == Ok(Int(255)) && p.offset == 0;
  }

  method EatFirstString()
  {
    var what: seq<Byte> := [119, 104, 97, 116];  // "what"
    var data := what + [0, 116, 104, 101, 0, 119, 104, 111];
    var p := new BitReader();
    p.Write(data);
    assert data[0..5] == what + [0];
    EatStringField(data, 0, what, 0);
    var s := p.EatString(Undefined);
    assert s == Ok(Some(what));
    // the separator is consumed: the next string starts after it
    assert p.offset == 5;
  }

  method EatMiddleString()
  {
    var the: seq<Byte> := [116, 104, 101];  // "the"
    var data := [119, 104, 97, 116, 0] + the + [0, 119, 104, 111];
    var p := new BitReader();
    p.Write(data);
    var _ := p.Eat(5, Raw);
    assert data[5..9] == the + [0];
    EatStringField(data, 5, the, 0);
    var s := p.EatString(Undefined);
    assert s == Ok(Some(the));
  }

  method EatLastString()
  {
    var who: seq<Byte> := [119, 104, 111];  // "who"
    var data := [119, 104, 97, 116, 0, 116, 104, 101, 0] + who;
    var p := new BitReader();
    p.Write(data);
    var _ := p.Eat(9, Raw);
    assert data[9..] == who;
    EatStringToEnd(data, 9, 0);
    var s := p.EatString(Undefined);
    assert s == Ok(Some(who));
    s := p.EatString(Undefined);
    assert s == Ok(None);
  }

  method StringSeparators()
  {
    var hello: seq<Byte> := [104, 101, 108, 108, 111];  // "hello"
    var world: seq<Byte> := [119, 111, 114, 108, 100];  // "world"
    var data := hello + [0xff] + world;
    var p := new BitReader();
    p.Write(data);
    assert data[0..6] == hello + [0xff];
    EatStringField(data, 0, hello, 0xff);
    var s := p.EatString(Number(0xff));
    assert s == Ok(Some(hello));
    assert data[6..] == world;
    EatStringToEnd(data, 6, 0xff);
    s := p.EatString(Number(0xff));
    assert s == Ok(Some(world));
  }

  method BadSeparators()
  {
    var p := new BitReader();
    p.Write([104, 101, 121, 104, 121, 101]);  // "heyhye"
    var s := p.EatString(NotANumber);
    assert s == Throw(TypeError);
    s := p.EatString(Char('∞'));
    assert s == Throw(RangeError);
    assert p.offset == 0;
  }

  method CharacterSeparator()
  {
    var he: seq<Byte> := [104, 101];  // "he"
    var data := he + [121, 104, 121, 101];  // "heyhye"
    var p := new BitReader();
    p.Write(data);
    assert data[0..3] == he + ['y' as int];
    EatStringField(data, 0, he, 'y' as int);
    var s := p.EatString(Char('y'));
    assert s == Ok(Some(he));
  }

  method Remainders()
  {
    var data := Ascii("how awesome is that?");
    var p := new BitReader();
    p.Write(data);
    var all := p.EatRemaining(RestOptions(0, Raw));
    assert all == Ok(Bytes(data[0..])) && data[0..] == data;
    var none := p.EatRemaining(RestOptions(0, Raw));
    assert none == Ok(Null);
  }

  method RemainderAfterRewind()
  {
    var that := Ascii("that?");
    var data := Ascii("how awesome is ") + that;
    var p := new BitReader();
    p.Write(data);
    var _ := p.EatRemaining(RestOptions(0, Raw));
    p.Rewind(5);
    var last := p.EatRemaining(RestOptions(0, Raw));
    assert last == Ok(Bytes(data[15..])) && data[15..] == that;
  }

  method RemainderChunks()
  {
    var ho := Ascii("ho");
    var data := ho + Ascii("w awesome is that?");
    var p := new BitReader();
    p.Write(data);
    RawChunks(data, 0, 2, BE);
    var chunks := p.EatRemaining(RestOptions(2, Raw));
    var split := Split(data[0..], 2);
    assert chunks == Ok(Array(AsBuffers(split)));
    assert |split| == 10;
    assert split[0] == data[..2] == ho;
  }

  /** Chunked integer reads: [0x00, 0xff] three times gives 0x00ff three
      times; a chunk that reads as 0 is falsy and ends the loop there, with
      the offset already past it. */
  lemma IntegerChunkVectors()
    ensures Chunked([0, 255, 0, 255, 0, 255], 0, 2, Integer(true, None), BE) ==
      (Ok([Int(255), Int(255), Int(255)]), 6)
    ensures Chunked([0, 0, 0, 255], 0, 2, Integer(true, None), BE) == (Ok([]), 2)
  {
    var opts := Integer(true, None);
    var b: seq<Byte> := [0, 255, 0, 255, 0, 255];
    assert b[0..2] == b[2..4] == b[4..6] == [0, 255];
    assert Read([0, 255], true, BE) == 255 by {
      assert [0, 255][..1] == [0];
    }
    EatInteger(b, 4, 2, opts, BE);
    assert Chunked(b, 4, 2, opts, BE) == (Ok([Int(255)]), 6) by {
      assert Chunked(b, 6, 2, opts, BE) == (Ok([]), 6);
      assert [Int(255)] + [] == [Int(255)];
    }
    EatInteger(b, 2, 2, opts, BE);
    assert Chunked(b, 2, 2, opts, BE) == (Ok([Int(255), Int(255)]), 6) by {
      assert [Int(255)] + [Int(255)] == [Int(255), Int(255)];
    }
    EatInteger(b, 0, 2, opts, BE);
    assert [Int(255)] + [Int(255), Int(255)] == [Int(255), Int(255), Int(255)];

    var z: seq<Byte> := [0, 0, 0, 255];
    assert z[0..2] == [0, 0];
    assert Read([0, 0], true, BE) == 0 by {
      assert [0, 0][..1] == [0];
    }
    EatInteger(z, 0, 2, opts, BE);
  }

  method IntegerChunks()
  {
    IntegerChunkVectors();
    var p := new BitReader();
    p.Write([0, 255, 0, 255, 0, 255]);
    var ints := p.EatRemaining(RestOptions(2, Integer(true, None)));
    assert ints == Ok(Array([Int(255), Int(255), Int(255)]));
  }

  method FalsyAmount()
  {
    var p := new BitReader();
    p.Write([7, 8, 9]);
    var one := p.Eat(0, Raw);
    assert one == Ok(Bytes([7, 8, 9][0..1])) && p.offset == 1;
  }

  method WritesAppend(a: seq<Byte>, b: seq<Byte>)
  {
    var p := new BitReader();
    var empty := p.GetBuffer();
    assert empty == [];
    p.Write(a);
    p.Write(b);
    var whole := p.GetBuffer();
    assert whole == a + b;
    var rest := p.EatRemaining(RestOptions(0, Raw));
    assert rest == Ok(if a + b == [] then Null else Bytes(a + b));
  }
}
