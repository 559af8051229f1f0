/**
 * The pure helpers of samples/InnerSloth.cs: the friend-code test that tells the
 * fleet's own participants apart (`MessageApi.isFriendcodeADuck`), the dotted rendering
 * of a listing's IPv4 address (`GameListing.AddressToString`), and the two fields read
 * out of a decoded matchmaker token (`Client.Getfriendcode`, `Client.GetPuid`).
 */
module MessageApi {
  import opened Wrappers
  import opened Text

  type uint32 = x: int | 0 <= x < 0x1_0000_0000

  /** `char.IsLetter`, restricted to the ASCII letters. */
  predicate IsLetter(c: char)
  {
    'a' <= c <= 'z' || 'A' <= c <= 'Z'
  }

  /** `isFriendcodeADuck`: non-empty, exactly two '#'-separated parts, four letters before, something after. */
  predicate IsFriendcodeADuck(code: string)
  {
    if |code| == 0 then false
    else
      var parts := Split(code, '#');
      |parts| == 2 && |parts[0]| == 4 && (forall i :: 0 <= i < 4 ==> IsLetter(parts[0][i])) && |parts[1]| > 0
  }

  /**
   * The same test read positionally: a friend code is one of the fleet's exactly when it
   * is four letters, a '#', and a non-empty tail with no further '#'.
   */
  lemma FriendcodeDuckShape(code: string)
    ensures IsFriendcodeADuck(code) <==>
      (|code| >= 6 && code[4] == '#' && (forall i :: 0 <= i < 4 ==> IsLetter(code[i])) && '#' !in code[5..])
  {
    var shape := |code| >= 6 && code[4] == '#' && (forall i :: 0 <= i < 4 ==> IsLetter(code[i])) && '#' !in code[5..];
    if IsFriendcodeADuck(code) {
      var parts := Split(code, '#');
      JoinSplit(code, '#');
      assert Join(parts[1..], '#') == parts[1];
      assert code == parts[0] + ['#'] + parts[1];
      assert code[..4] == parts[0] && code[5..] == parts[1];
    }
    if shape {
      var parts := [code[..4], code[5..]];
      assert '#' !in parts[0] by {
        forall i | 0 <= i < 4 ensures code[..4][i] != '#' { assert IsLetter(code[i]); }
      }
      SplitJoin(parts, '#');
      assert Join(parts, '#') == code[..4] + ['#'] + code[5..];
      assert code == code[..4] + ['#'] + code[5..];
    }
  }

  /** A game returned by the matchmaker search (`GameListing`), with the fields the registry keeps. */
  datatype GameListing = GameListing(ip: uint32, port: nat, gameId: int, playerCount: nat, trueHostName: string)

  /** Octet `i` of an address, `(address >> 8i) & 0xFF`. */
  function Octet(address: uint32, i: nat): (b: nat)
    requires i < 4
    ensures b < 256
  {
    if i == 0 then address % 256
    else if i == 1 then address / 0x100 % 256
    else if i == 2 then address / 0x1_0000 % 256
    else address / 0x100_0000 % 256
  }

  /** The decimal renderings of the four octets, lowest byte first. */
  function OctetStrings(address: uint32): seq<string>
  {
    [Decimal(Octet(address, 0)), Decimal(Octet(address, 1)), Decimal(Octet(address, 2)), Decimal(Octet(address, 3))]
  }

  /** `AddressToString`: the four octets, lowest byte first, in decimal, separated by dots. */
  function AddressToString(address: uint32): string
  {
    Join(OctetStrings(address), '.')
  }

  /** Reads a dotted quad back into the address it was rendered from (lowest byte first). */
  function ParseAddress(s: string): Option<uint32>
  {
    var parts := Split(s, '.');
    if |parts| != 4 then None else ParseQuad(parts)
  }

  function ParseQuad(parts: seq<string>): Option<uint32>
    requires |parts| == 4
  {
    match (ParseDecimal(parts[0]), ParseDecimal(parts[1]), ParseDecimal(parts[2]), ParseDecimal(parts[3]))
    case (Some(a), Some(b), Some(c), Some(d)) =>
      if a < 256 && b < 256 && c < 256 && d < 256
      then Some(a + 0x100 * b + 0x1_0000 * c + 0x100_0000 * d)
      else None
    case _ => None
  }

  lemma ParseQuadOf(parts: seq<string>, a: nat, b: nat, c: nat, d: nat)
    requires |parts| == 4 && a < 256 && b < 256 && c < 256 && d < 256
    requires ParseDecimal(parts[0]) == Some(a) && ParseDecimal(parts[1]) == Some(b)
    requires ParseDecimal(parts[2]) == Some(c) && ParseDecimal(parts[3]) == Some(d)
    ensures ParseQuad(parts) == Some(a + 0x100 * b + 0x1_0000 * c + 0x100_0000 * d)
  {
  }

  lemma NoDotInDecimal(n: nat)
    ensures '.' !in Decimal(n)
  {
    var s := Decimal(n);
    forall i | 0 <= i < |s| ensures s[i] != '.' { assert IsDigit(s[i]); }
  }

  /** Octet `i`, printed `i`-th from the left, is `(address >> 8i) mod 256`. */
  lemma {:induction false} AddressOctets(address: uint32)
    ensures Split(AddressToString(address), '.') == OctetStrings(address)
    ensures forall i :: 0 <= i < 4 ==> ParseDecimal(Split(AddressToString(address), '.')[i]) == Some(Octet(address, i))
  {
    var parts := OctetStrings(address);
    forall i | 0 <= i < 4 ensures '.' !in parts[i] { NoDotInDecimal(Octet(address, i)); }
    SplitJoin(parts, '.');
    forall i | 0 <= i < 4 ensures ParseDecimal(parts[i]) == Some(Octet(address, i)) {
      ParseDecimalRoundTrip(Octet(address, i));
    }
  }

  lemma OctetsRebuild(a: uint32)
    ensures a == Octet(a, 0) + 0x100 * Octet(a, 1) + 0x1_0000 * Octet(a, 2) + 0x100_0000 * Octet(a, 3)
  {
    var q1 := a / 0x100;
    var q2 := q1 / 0x100;
    var q3 := q2 / 0x100;
    assert a == 0x100 * q1 + a % 256;
    assert q1 == 0x100 * q2 + q1 % 256;
    assert q2 == 0x100 * q3 + q2 % 256;
    assert q3 < 256;
    assert a / 0x1_0000 == q2;
    assert a / 0x100_0000 == q3;
    assert Octet(a, 0) == a % 256 && Octet(a, 1) == q1 % 256 && Octet(a, 2) == q2 % 256 && Octet(a, 3) == q3;
  }

  /** Four parts that parse to the octets of `address` parse back to `address`. */
  lemma QuadOfOctets(address: uint32, parts: seq<string>)
    requires |parts| == 4
    requires forall i :: 0 <= i < 4 ==> ParseDecimal(parts[i]) == Some(Octet(address, i))
    ensures ParseQuad(parts) == Some(address)
  {
    ParseQuadOf(parts, Octet(address, 0), Octet(address, 1), Octet(address, 2), Octet(address, 3));
    OctetsRebuild(address);
  }

  /** The rendering loses nothing: parsing it gives back the address. */
  lemma {:induction false} AddressRoundTrip(address: uint32)
    ensures ParseAddress(AddressToString(address)) == Some(address)
  {
    AddressOctets(address);
    QuadOfOctets(address, Split(AddressToString(address), '.'));
  }

  /**
   * `GetPuid`, on the already base64-decoded token: the text before the first space, or
   * the whole token when it has no space.
   */
  function PuidOf(decodedToken: string): (puid: string)
    ensures ' ' !in puid
    ensures StartsWith(decodedToken, puid)
    ensures |puid| < |decodedToken| ==> decodedToken[|puid|] == ' '
    ensures ' ' !in decodedToken ==> puid == decodedToken
  {
    JoinSplit(decodedToken, ' ');
    var parts := Split(decodedToken, ' ');
    assert |parts| == 1 || Join(parts, ' ') == parts[0] + [' '] + Join(parts[1..], ' ');
    assert |parts| > 1 ==> decodedToken[|parts[0]|] == ' ';
    parts[0]
  }

  /** `Getfriendcode`, on the already base64-decoded token: the second space-separated field, or "". */
  function FriendCodeOf(decodedToken: string): (code: string)
    ensures ' ' !in code
    ensures ' ' !in decodedToken ==> code == ""
  {
    var parts := Split(decodedToken, ' ');
    if ' ' !in decodedToken then
      assert Split(decodedToken, ' ') == [decodedToken] by {
        SplitJoin([decodedToken], ' ');
      }
      ""
    else if |parts| > 1 then parts[1] else ""
  }

  /** A token "puid friendcode ..." yields its puid and its friend code. */
  lemma {:induction false} TokenFields(fields: seq<string>)
    requires |fields| >= 2
    requires forall i :: 0 <= i < |fields| ==> ' ' !in fields[i]
    ensures PuidOf(Join(fields, ' ')) == fields[0]
    ensures FriendCodeOf(Join(fields, ' ')) == fields[1]
  {
    SplitJoin(fields, ' ');
    assert Join(fields, ' ') == fields[0] + [' '] + Join(fields[1..], ' ');
    assert ' ' in Join(fields, ' ') by {
      assert Join(fields, ' ')[|fields[0]|] == ' ';
    }
  }
}
