/** Byte-order names as BitReader understands them (`BitReader.interpretEndian`). */
module ByteOrder {
  import opened Values

  datatype Endian = BE | LE

  /** The name under which the reader stores an order in its `endianness` field. */
  function Name(e: Endian): string
  {
    match e
    case BE => "BE"
    case LE => "LE"
  }

  /** ASCII lower-casing: the case folding a JavaScript `/i` regular expression
      without the `u` flag applies to the letters of "le", "little", "be", "big". */
  function LowerChar(c: char): char
  {
    if 'A' <= c <= 'Z' then (c as int + 32) as char else c
  }

  function UpperChar(c: char): char
  {
    if 'a' <= c <= 'z' then (c as int - 32) as char else c
  }

  function Lower(s: string): string
  {
    seq(|s|, i requires 0 <= i < |s| => LowerChar(s[i]))
  }

  /** `s` matches the anchored pattern `^w$` under the `/i` flag, read
      character class by character class: each character of `s` is the
      letter of `w` at that place, in lower or upper case. */
  ghost predicate Matches(s: string, w: string)
  {
    |s| == |w| && forall i :: 0 <= i < |s| ==> s[i] == w[i] || s[i] == UpperChar(w[i])
  }

  ghost predicate LowerWord(w: string)
  {
    forall i :: 0 <= i < |w| ==> 'a' <= w[i] <= 'z'
  }

  lemma LowerMatches(s: string, w: string)
    requires LowerWord(w)
    ensures Lower(s) == w <==> Matches(s, w)
  {
    if Matches(s, w) {
      assert forall i :: 0 <= i < |s| ==> Lower(s)[i] == w[i];
    }
    if Lower(s) == w {
      forall i | 0 <= i < |s| ensures s[i] == w[i] || s[i] == UpperChar(w[i]) {
        assert LowerChar(s[i]) == w[i];
      }
    }
  }

  /** `interpretEndian`: "le"/"little" in any case give LE, "be"/"big" in any
      case give BE, anything else gives `null`. */
  function Interpret(s: string): (r: Option<Endian>)
    ensures r == Some(LE) <==> Matches(s, "le") || Matches(s, "little")
    ensures r == Some(BE) <==> Matches(s, "be") || Matches(s, "big")
    ensures r == None <==> !(Matches(s, "le") || Matches(s, "little") || Matches(s, "be") || Matches(s, "big"))
  {
    LowerMatches(s, "le");
    LowerMatches(s, "little");
    LowerMatches(s, "be");
    LowerMatches(s, "big");
    var l := Lower(s);
    if l == "le" || l == "little" then Some(LE)
    else if l == "be" || l == "big" then Some(BE)
    else None
  }

  /** The stored name of an order is read back as that order, so the
      constructor's default 'BE' and the values `setEndian` stores are
      accepted again. */
  lemma NameRoundTrip(e: Endian)
    ensures Interpret(Name(e)) == Some(e)
  {
  }

  /** The spellings the reader's tests use. */
  lemma InterpretVectors()
    ensures Interpret("le") == Some(LE) && Interpret("little") == Some(LE)
    ensures Interpret("big") == Some(BE) && Interpret("BE") == Some(BE)
    ensures Interpret("huge") == None && Interpret("massive") == None
  {
    assert Matches("le", "le") && Matches("little", "little") && Matches("big", "big");
    assert Matches("BE", "be");
    assert !Matches("huge", "be") && !Matches("huge", "big");
    assert !Matches("massive", "little");
  }
}
