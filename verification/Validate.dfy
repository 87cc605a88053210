/** Identifier checks of internal/validate/validate.go. */
module Validate {
  import opened Wrappers
  import opened Text

  const MAX_ID_BYTES: nat := 64
  const MAX_ADDRESS_BYTES: nat := 255

  function RequiredKeySegment(value: string, maxBytes: nat): Result<string> {
    var v := TrimSpace(value);
    if v == "" then Err(InvalidArgument)
    else if ByteLen(v) > maxBytes then Err(InvalidArgument)
    else if ContainsAny(v, " \t\r\n") then Err(InvalidArgument)
    else if ':' in v then Err(InvalidArgument)
    else Ok(v)
  }

  /** UserID, CharacterID, GameServerID and RequiredID are this function. */
  function RequiredID(value: string): Result<string> {
    RequiredKeySegment(value, MAX_ID_BYTES)
  }

  /** OptionalGameServerID: blank input asks for automatic selection. */
  function OptionalGameServerID(value: string): Result<string> {
    var v := TrimSpace(value);
    if v == "" then Ok("") else RequiredID(v)
  }

  function ServerAddress(value: string): Result<string> {
    var v := TrimSpace(value);
    if v == "" then Err(InvalidArgument)
    else if ByteLen(v) > MAX_ADDRESS_BYTES then Err(InvalidArgument)
    else if ContainsAny(v, "\t\r\n") then Err(InvalidArgument)
    else Ok(v)
  }

  /** An identifier that validation leaves as it is; what the stores demand of their callers. */
  predicate Normalized(id: string) {
    RequiredID(id) == Ok(id)
  }

  /** Validation is idempotent: what it accepts, it accepts again unchanged. */
  lemma AcceptedIsNormalized(value: string)
    requires RequiredID(value).Ok?
    ensures Normalized(RequiredID(value).value)
    ensures RequiredID(value).value != ""
  {
  }

  /** What a segment of a key may look like after trimming. */
  predicate Clean(id: string) {
    id != "" && forall i | 0 <= i < |id| :: id[i] != ':' && id[i] != ' ' && id[i] != '\t' && id[i] != '\r' && id[i] != '\n'
  }

  /** An identifier is accepted as `id` if and only if it is `id` with white space around it, and `id` has 1 to
      64 bytes, no white space at its ends, and no colon, blank, tab or line break anywhere. */
  lemma RequiredIDIff(value: string, id: string)
    ensures RequiredID(value) == Ok(id) <==> Padded(value, id) && Trimmed(id) && Clean(id) && ByteLen(id) <= 64
  {
    TrimSpaceIff(value, id);
    CleanIff(id);
  }

  lemma CleanIff(id: string)
    ensures Clean(id) <==> id != "" && !ContainsAny(id, " \t\r\n") && ':' !in id
  {
    if Clean(id) {
      assert forall i | 0 <= i < |id| :: id[i] !in " \t\r\n";
    } else if id != "" {
      var i :| 0 <= i < |id| && (id[i] == ':' || id[i] == ' ' || id[i] == '\t' || id[i] == '\r' || id[i] == '\n');
      var blanks := " \t\r\n";
      assert blanks[0] == ' ' && blanks[1] == '\t' && blanks[2] == '\r' && blanks[3] == '\n';
      assert id[i] == ':' || id[i] in blanks;
    }
  }

  /** An optional server ID is blank, or a required one. */
  lemma OptionalIsRequired(value: string)
    ensures OptionalGameServerID(value) == if AllSpace(value) then Ok("") else RequiredID(value)
  {
    TrimSpaceTrims(value);
    TrimSpaceTrims(TrimSpace(value));
  }

  /** An address is accepted as `addr` if and only if it is `addr` with white space around it, and `addr` has 1
      to 255 bytes, no white space at its ends, and no tab or line break. Colons and blanks are allowed. */
  lemma ServerAddressIff(value: string, addr: string)
    ensures ServerAddress(value) == Ok(addr) <==>
            && Padded(value, addr) && Trimmed(addr) && addr != "" && ByteLen(addr) <= 255
            && forall i | 0 <= i < |addr| :: addr[i] != '\t' && addr[i] != '\r' && addr[i] != '\n'
  {
    TrimSpaceIff(value, addr);
    var breaks := "\t\r\n";
    assert breaks[0] == '\t' && breaks[1] == '\r' && breaks[2] == '\n';
    assert forall i | 0 <= i < |addr| :: addr[i] in breaks <==> addr[i] == '\t' || addr[i] == '\r' || addr[i] == '\n';
  }
}
