/** Opaque tokens of internal/auth/token.go. */
module Token {
  import opened Wrappers
  import opened Text
  import opened Base64
  import Validate
  import Keys

  const MIN_TOKEN_BYTES: int := 16

  /** NewOpaqueToken. The bytes the random source delivers, if it does, are the parameter `entropy`. */
  method NewOpaqueToken(numBytes: int, entropy: Option<seq<Byte>>) returns (r: Result<string>)
    requires entropy.Some? ==> |entropy.value| == numBytes
    ensures r == if numBytes < 16 then Err(InvalidArgument)
                 else if entropy.None? then Err(Internal)
                 else Ok(Encode(Url, entropy.value))
  {
    if numBytes < MIN_TOKEN_BYTES {
      return Err(InvalidArgument);
    }
    if entropy.None? {
      return Err(Internal);
    }
    var drawn := entropy.value;
    var buf := new Byte[numBytes];
    var i := 0;
    while i < numBytes
      invariant 0 <= i <= numBytes
      invariant buf[..i] == drawn[..i]
    {
      buf[i] := drawn[i];
      i := i + 1;
    }
    assert buf[..] == drawn;
    r := Ok(Encode(Url, buf[..]));
  }

  /** Tokens are injective in their bytes, carry no separator or white space, are valid key segments,
      and pass the stores' identifier check unchanged exactly up to 48 bytes. */
  lemma TokenIsIdentifier(entropy: seq<Byte>)
    requires |entropy| >= MIN_TOKEN_BYTES
    ensures Keys.ValidSegment(Encode(Url, entropy))
    ensures Validate.Normalized(Encode(Url, entropy)) <==> |entropy| <= 48
  {
    var t := Encode(Url, entropy);
    assert Keys.Plain(t);
    Keys.PlainIsValid(t);
    TrimSpaceTrims(t);
    AsciiByteLen(t);
  }

  lemma TokensInjective(a: seq<Byte>, b: seq<Byte>)
    requires Encode(Url, a) == Encode(Url, b)
    ensures a == b
  {
    DecodeEncode(Url, a);
    DecodeEncode(Url, b);
  }
}
