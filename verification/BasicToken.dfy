/** The credentials of HTTP basic authentication (section 2 of RFC 7617). */
module BasicToken {
  import opened Bytes
  import Base64

  const COLON: byte := 58

  datatype TokenError = NoSeparator

  /** The first position of a byte, as `std::string::find` reports it. */
  function Find(s: bytes, c: byte): (r: Option<nat>)
    ensures r == None <==> c !in s
    ensures r.Some? ==> r.value < |s| && s[r.value] == c && forall j :: 0 <= j < r.value ==> s[j] != c
  {
    if s == [] then None
    else if s[0] == c then Some(0)
    else
      match Find(s[1..], c)
      case None => None
      case Some(i) => Some(i + 1)
  }

  function EncodeBasicToken(username: bytes, password: bytes): bytes {
    Base64.Encoded(username + [COLON] + password)
  }

  function DecodeBasicToken(token: bytes): Result<(bytes, bytes), TokenError> {
    CutAtColon(Base64.Decoded(token))
  }

  function CutAtColon(s: bytes): Result<(bytes, bytes), TokenError> {
    match Find(s, COLON)
    case None => Err(NoSeparator)
    case Some(i) => Ok((s[..i], s[i + 1..]))
  }

  /** Credentials survive exactly when the user name has no colon; the password may have any. */
  lemma CredentialRoundTrip(username: bytes, password: bytes)
    ensures DecodeBasicToken(EncodeBasicToken(username, password)) == Ok((username, password))
      <==> COLON !in username
  {
    var s := username + [COLON] + password;
    Base64.RoundTrip(s);
    var i := Find(s, COLON).value;
    assert s[|username|] == COLON;
    assert forall j :: 0 <= j < |username| ==> s[j] == username[j];
    assert i == |username| <==> COLON !in username;
    if COLON !in username {
      assert s[..i] == username && s[i + 1..] == password;
    }
  }

  /** A pair is the text cut at its first colon, so the user name has none. */
  lemma Credentials(s: bytes)
    ensures CutAtColon(s).Ok? <==> COLON in s
    ensures CutAtColon(s).Ok? ==>
      var (username, password) := CutAtColon(s).value;
      COLON !in username && username + [COLON] + password == s
  {
    match Find(s, COLON)
    case None =>
    case Some(i) =>
      assert s == s[..i] + [s[i]] + s[i + 1..];
  }

  /** The token is the encoding of the name, a colon (code 58) and the password. */
  lemma TokenText(username: bytes, password: bytes, token: bytes)
    ensures Base64.Decoded(EncodeBasicToken(username, password)) == username + [58] + password
    ensures forall name, secret :: 58 !in name && Base64.Decoded(token) == name + [58] + secret ==>
      DecodeBasicToken(token) == Ok((name, secret))
  {
    Base64.RoundTrip(username + [COLON] + password);
    var s := Base64.Decoded(token);
    forall name, secret | 58 !in name && s == name + [58] + secret
      ensures DecodeBasicToken(token) == Ok((name, secret))
    {
      assert s[|name|] == 58 && forall j :: 0 <= j < |name| ==> s[j] == name[j];
      assert s[..|name|] == name && s[|name| + 1..] == secret;
    }
  }
}
