/**
 * samples/project-hostducks/HazelConnection.cs: the handshake payload that opens a session
 * (`GetConnectionData`), the four-field payload of the nonce-authenticated DTLS variant
 * (`BuildDataForDtlsNonceAuth`), and the PEM certificate decoder (`CryptoHelpers.DecodePEM`).
 *
 * Each writer method is proved against an independent reader of the field log: the
 * reader gives back exactly the record the method was asked to send, and the reader
 * determines the log, so the log is the one and only layout with that content.
 */
module HazelConnection {
  import opened Wrappers
  import opened Text
  import opened Hazel

  /** `GameKeywords.English` and `QuickChatModes.FreeChatOrQuickChat` of the game's API. */
  const ENGLISH: nat := 256
  const FREE_CHAT_OR_QUICK_CHAT: byte := 1

  /** `Platforms.Xbox` and `Platforms.Playstation` of the game's API. */
  const XBOX: byte := 9
  const PLAYSTATION: byte := 10

  /** The opening of a PEM armour line ("-----BEGIN ...", "-----END ..."). */
  const PEM_BOUNDARY := "-----"

  /** Matchmaker tokens longer than this are sent as the auth field. */
  const TOKEN_AUTH_MIN_EXCLUSIVE := 16

  /** `PlatformSpecificData`: the platform byte, its display name and the per-console ids. */
  datatype PlatformData = PlatformData(platform: byte, name: string, xboxId: Option<nat>, psnId: Option<nat>)

  datatype HandshakeError = PlatformIdRequired(platform: byte)

  datatype Auth = TokenAuth(token: string) | NonceAuth(nonce: nat)

  datatype Trailer = FriendCode(code: string) | NoFriendCode

  /** What a peer reads out of a `GetConnectionData` payload. */
  datatype ConnectionData = ConnectionData(
    version: int, name: string, auth: Auth, language: nat, chatMode: byte,
    platform: byte, platformName: string, platformId: Option<nat>, trailer: Trailer)

  datatype NonceAuthData = NonceAuthData(version: int, platform: byte, token: string, friendCode: string)

  /** The auth field: the token when it is present and longer than 16 characters, else the nonce, else 0. */
  function AuthFor(token: Option<string>, nonce: Option<nat>): (a: Auth)
    ensures a.TokenAuth? <==> !IsNullOrEmpty(token) && |token.value| > TOKEN_AUTH_MIN_EXCLUSIVE
    ensures a.TokenAuth? ==> a.token == token.value
    ensures a.NonceAuth? ==> a.nonce == (if nonce.Some? then nonce.value else 0)
  {
    if !IsNullOrEmpty(token) && |token.value| > TOKEN_AUTH_MIN_EXCLUSIVE then TokenAuth(token.value)
    else if nonce.Some? then NonceAuth(nonce.value)
    else NonceAuth(0)
  }

  /** The trailer: the friend code whenever a token is present at all, whatever its length. */
  function TrailerFor(token: Option<string>, friendCode: string): (t: Trailer)
    ensures t.FriendCode? <==> !IsNullOrEmpty(token)
    ensures t.FriendCode? ==> t.code == friendCode
  {
    if !IsNullOrEmpty(token) then FriendCode(friendCode) else NoFriendCode
  }

  /** A console platform whose id is absent: writing it throws. */
  predicate MissingPlatformId(p: PlatformData)
  {
    (p.platform == XBOX && p.xboxId.None?) || (p.platform == PLAYSTATION && p.psnId.None?)
  }

  function PlatformIdFor(p: PlatformData): (id: Option<nat>)
    ensures id.Some? <==> (p.platform == XBOX && p.xboxId.Some?) || (p.platform == PLAYSTATION && p.psnId.Some?)
  {
    if p.platform == XBOX then p.xboxId
    else if p.platform == PLAYSTATION then p.psnId
    else None
  }

  function ReadTrailer(fields: seq<Field>): Option<Trailer>
  {
    if |fields| == 1 && fields[0].Str? then Some(FriendCode(fields[0].s))
    else if fields == [Str(""), UInt32(0)] then Some(NoFriendCode)
    else None
  }

  /**
   * The peer's reading of a handshake: version, name, auth, language, chat mode, then the
   * platform message (tag, name, optional console id, end), then the trailer.
   */
  function ReadConnectionData(fields: seq<Field>): Option<ConnectionData>
  {
    if |fields| < 8 then None
    else if !(fields[0].Int32? && fields[1].Str? && (fields[2].Str? || fields[2].UInt32?)
              && fields[3].UInt32? && fields[4].Byte? && fields[5].Start? && fields[6].Str?) then None
    else
      var auth := if fields[2].Str? then TokenAuth(fields[2].s) else NonceAuth(fields[2].u);
      var id := if fields[7].UInt64? then Some(fields[7].l) else None;
      var rest := if fields[7].UInt64? then fields[8..] else fields[7..];
      if |rest| == 0 || !rest[0].End? then None
      else
        match ReadTrailer(rest[1..])
        case None => None
        case Some(trailer) =>
          Some(ConnectionData(fields[0].i, fields[1].s, auth, fields[3].u, fields[4].b,
                              fields[5].tag, fields[6].s, id, trailer))
  }

  /** The reader is injective: a handshake's content fixes its field layout. */
  lemma {:induction false} ReadConnectionDataInjective(a: seq<Field>, b: seq<Field>)
    requires ReadConnectionData(a).Some?
    requires ReadConnectionData(a) == ReadConnectionData(b)
    ensures a == b
  {
    var d := ReadConnectionData(a).value;
    assert a[0] == Int32(d.version) == b[0];
    assert a[1] == Str(d.name) == b[1];
    assert a[2] == b[2] by {
      match d.auth
      case TokenAuth(t) => assert a[2] == Str(t) == b[2];
      case NonceAuth(n) => assert a[2] == UInt32(n) == b[2];
    }
    assert a[3] == b[3] && a[4] == b[4] && a[5] == b[5] && a[6] == b[6];
    var k := if d.platformId.Some? then 8 else 7;
    assert a[7] == b[7] || k == 7;
    assert a[k..] == b[k..] by {
      assert a[k] == End == b[k];
      match d.trailer
      case FriendCode(c) =>
        assert a[k + 1..] == [Str(c)] == b[k + 1..];
      case NoFriendCode =>
        assert a[k + 1..] == [Str(""), UInt32(0)] == b[k + 1..];
      assert a[k..] == [a[k]] + a[k + 1..];
      assert b[k..] == [b[k]] + b[k + 1..];
    }
    assert a == a[..k] + a[k..];
    assert b == b[..k] + b[k..];
    assert a[..k] == b[..k];
  }

  function AuthField(a: Auth): Field
  {
    match a
    case TokenAuth(t) => Str(t)
    case NonceAuth(n) => UInt32(n)
  }

  function TrailerFields(t: Trailer): seq<Field>
  {
    match t
    case FriendCode(c) => [Str(c)]
    case NoFriendCode => [Str(""), UInt32(0)]
  }

  /** The field layout of a handshake record, in the order the peer reads it. */
  function Layout(d: ConnectionData): seq<Field>
  {
    [Int32(d.version), Str(d.name), AuthField(d.auth), UInt32(d.language), Byte(d.chatMode),
     Start(d.platform), Str(d.platformName)]
    + (if d.platformId.Some? then [UInt64(d.platformId.value)] else [])
    + [End] + TrailerFields(d.trailer)
  }

  /** Every record survives being laid out and read back. */
  lemma LayoutRoundTrip(d: ConnectionData)
    ensures ReadConnectionData(Layout(d)) == Some(d)
  {
    var head := [Int32(d.version), Str(d.name), AuthField(d.auth), UInt32(d.language), Byte(d.chatMode),
                 Start(d.platform), Str(d.platformName)];
    var idFields := if d.platformId.Some? then [UInt64(d.platformId.value)] else [];
    var tail := [End] + TrailerFields(d.trailer);
    var fs := Layout(d);
    assert fs == head + idFields + tail;
    var k := |head| + |idFields|;
    assert fs[..7] == head;
    assert fs[k..] == tail;
    assert fs[k + 1..] == TrailerFields(d.trailer);
    assert ReadTrailer(TrailerFields(d.trailer)) == Some(d.trailer);
    assert d.auth == (if fs[2].Str? then TokenAuth(fs[2].s) else NonceAuth(fs[2].u));
  }

  method WriteAuth(writer: MessageWriter, matchmakerToken: Option<string>, authNonce: Option<nat>)
    requires writer.Valid()
    modifies writer
    ensures writer.Valid() && writer.open == old(writer.open)
    ensures writer.fields == old(writer.fields) + [AuthField(AuthFor(matchmakerToken, authNonce))]
  {
    if !IsNullOrEmpty(matchmakerToken) && |matchmakerToken.value| > TOKEN_AUTH_MIN_EXCLUSIVE {
      writer.Write(Str(matchmakerToken.value));
    } else if authNonce.Some? {
      writer.Write(UInt32(authNonce.value));
    } else {
      writer.Write(UInt32(0));
    }
  }

  /** The switch on the platform: a console id for Xbox and Playstation, which throws when absent. */
  method WritePlatformId(writer: MessageWriter, platform: PlatformData) returns (ok: bool)
    requires writer.Valid()
    modifies writer
    ensures ok <==> !MissingPlatformId(platform)
    ensures writer.Valid() && writer.open == old(writer.open)
    ensures ok ==>
      writer.fields == old(writer.fields) + (if PlatformIdFor(platform).Some? then [UInt64(PlatformIdFor(platform).value)] else [])
  {
    ok := true;
    if platform.platform == XBOX {
      if platform.xboxId.None? {
        return false;
      }
      writer.Write(UInt64(platform.xboxId.value));
    } else if platform.platform == PLAYSTATION {
      if platform.psnId.None? {
        return false;
      }
      writer.Write(UInt64(platform.psnId.value));
    }
  }

  method WriteTrailer(writer: MessageWriter, matchmakerToken: Option<string>, friendCode: string)
    requires writer.Valid()
    modifies writer
    ensures writer.Valid() && writer.open == old(writer.open)
    ensures writer.fields == old(writer.fields) + TrailerFields(TrailerFor(matchmakerToken, friendCode))
  {
    if !IsNullOrEmpty(matchmakerToken) {
      writer.Write(Str(friendCode));
    } else {
      writer.Write(Str(""));
      writer.Write(UInt32(0));
    }
  }

  /**
   * `GetConnectionData`: version, name, auth, language, chat mode, the platform message
   * (opened with the platform byte as its tag, its name first, closed before the trailer),
   * then the trailer; throws for a console platform without its id.
   */
  method GetConnectionData(name: string, matchmakerToken: Option<string>, authNonce: Option<nat>,
                           version: int, platform: PlatformData, friendCode: string)
    returns (r: Result<seq<Field>, HandshakeError>)
    ensures r.Failure? <==> MissingPlatformId(platform)
    ensures r.Success? ==> Balanced(r.value)
    ensures r.Success? ==> ReadConnectionData(r.value) == Some(ConnectionData(
      version, name, AuthFor(matchmakerToken, authNonce), ENGLISH, FREE_CHAT_OR_QUICK_CHAT,
      platform.platform, platform.name, PlatformIdFor(platform), TrailerFor(matchmakerToken, friendCode)))
  {
    ghost var d := ConnectionData(
      version, name, AuthFor(matchmakerToken, authNonce), ENGLISH, FREE_CHAT_OR_QUICK_CHAT,
      platform.platform, platform.name, PlatformIdFor(platform), TrailerFor(matchmakerToken, friendCode));
    var writer := new MessageWriter();
    writer.Write(Int32(version));
    writer.Write(Str(name));
    WriteAuth(writer, matchmakerToken, authNonce);
    writer.Write(UInt32(ENGLISH));
    writer.Write(Byte(FREE_CHAT_OR_QUICK_CHAT));

    writer.StartMessage(platform.platform);
    writer.Write(Str(platform.name));
    ghost var head := writer.fields;
    assert head == [Int32(d.version), Str(d.name), AuthField(d.auth), UInt32(d.language), Byte(d.chatMode),
                    Start(d.platform), Str(d.platformName)];
    var ok := WritePlatformId(writer, platform);
    if !ok {
      return Failure(PlatformIdRequired(platform.platform));
    }
    ghost var withId := writer.fields;
    writer.EndMessage();

    WriteTrailer(writer, matchmakerToken, friendCode);
    assert writer.fields == withId + [End] + TrailerFields(d.trailer);
    assert writer.fields == Layout(d);
    LayoutRoundTrip(d);
    return Success(writer.fields);
  }

  function ReadNonceAuthData(fields: seq<Field>): Option<NonceAuthData>
  {
    if |fields| == 4 && fields[0].Int32? && fields[1].Byte? && fields[2].Str? && fields[3].Str?
    then Some(NonceAuthData(fields[0].i, fields[1].b, fields[2].s, fields[3].s))
    else None
  }

  /** `BuildDataForDtlsNonceAuth`: version, platform byte, token (null as ""), friend code (null as ""). */
  method BuildDataForDtlsNonceAuth(matchmakerToken: Option<string>, friendCode: Option<string>,
                                   version: int, platform: byte)
    returns (data: seq<Field>)
    ensures Balanced(data) && |data| == 4
    ensures ReadNonceAuthData(data) == Some(NonceAuthData(version, platform,
      matchmakerToken.GetOr(""), friendCode.GetOr("")))
  {
    var writer := new MessageWriter();
    writer.Write(Int32(version));
    writer.Write(Byte(platform));
    writer.Write(Str(matchmakerToken.GetOr("")));
    writer.Write(Str(friendCode.GetOr("")));
    return writer.fields;
  }

  /** Lines that `DecodePEM` skips: the armour lines. */
  predicate IsArmourLine(line: string)
  {
    StartsWith(line, PEM_BOUNDARY)
  }

  /**
   * The decoding of a sequence of lines, front to back: armour lines contribute nothing,
   * every other line its base64 decoding; a line that does not decode makes the whole fail.
   */
  function DecodeLines(lines: seq<string>, base64: string -> Option<seq<byte>>): Option<seq<byte>>
  {
    if lines == [] then Some([])
    else
      match DecodeLines(lines[..|lines| - 1], base64)
      case None => None
      case Some(prefix) =>
        var last := lines[|lines| - 1];
        if IsArmourLine(last) then Some(prefix)
        else match base64(last)
          case None => None
          case Some(segment) => Some(prefix + segment)
  }

  /** The decoding of `xs + ys` is the decoding of `xs` followed by that of `ys`. */
  lemma {:induction false} DecodeLinesAppend(xs: seq<string>, ys: seq<string>, base64: string -> Option<seq<byte>>)
    ensures DecodeLines(xs + ys, base64) ==
      match (DecodeLines(xs, base64), DecodeLines(ys, base64))
      case (Some(a), Some(b)) => Some(a + b)
      case _ => None
    decreases |ys|
  {
    if ys == [] {
      assert xs + ys == xs;
      match DecodeLines(xs, base64)
      case Some(a) => assert a + [] == a;
      case None =>
    } else {
      var ys' := ys[..|ys| - 1];
      DecodeLinesAppend(xs, ys', base64);
      assert (xs + ys)[..|xs + ys| - 1] == xs + ys';
      assert (xs + ys)[|xs + ys| - 1] == ys[|ys| - 1];
      match (DecodeLines(xs, base64), DecodeLines(ys', base64))
      case (Some(a), Some(b)) =>
        assert DecodeLines(xs + ys', base64) == Some(a + b);
        var last := ys[|ys| - 1];
        if !IsArmourLine(last) && base64(last).Some? {
          assert (a + b) + base64(last).value == a + (b + base64(last).value);
        }
      case _ =>
    }
  }

  /** Armour lines are skipped; any other line decodes on its own. */
  lemma DecodeOneLine(line: string, base64: string -> Option<seq<byte>>)
    ensures DecodeLines([line], base64) == if IsArmourLine(line) then Some([]) else base64(line)
  {
    assert [line][..0] == [];
    match base64(line)
    case Some(b) => assert [] + b == b;
    case None =>
  }

  /** The decoding fails exactly when some non-armour line is not valid base64. */
  lemma {:induction false} DecodeLinesFails(lines: seq<string>, base64: string -> Option<seq<byte>>)
    ensures DecodeLines(lines, base64).None? <==>
      exists i :: 0 <= i < |lines| && !IsArmourLine(lines[i]) && base64(lines[i]).None?
    decreases |lines|
  {
    if lines != [] {
      var init := lines[..|lines| - 1];
      DecodeLinesFails(init, base64);
      if exists i :: 0 <= i < |init| && !IsArmourLine(init[i]) && base64(init[i]).None? {
        var i :| 0 <= i < |init| && !IsArmourLine(init[i]) && base64(init[i]).None?;
        assert lines[i] == init[i];
      }
      if exists i :: 0 <= i < |lines| && !IsArmourLine(lines[i]) && base64(lines[i]).None? {
        var i :| 0 <= i < |lines| && !IsArmourLine(lines[i]) && base64(lines[i]).None?;
        if i < |init| { assert init[i] == lines[i]; }
      }
    }
  }

  /** What `DecodePEM` computes: carriage returns removed, split on '\n', the lines decoded. */
  function PemBytes(pem: string, base64: string -> Option<seq<byte>>): Option<seq<byte>>
  {
    DecodeLines(Split(Remove(pem, '\r'), '\n'), base64)
  }

  /** `CryptoHelpers.DecodePEM`; `None` stands for the `FormatException` of an invalid line. */
  method DecodePEM(pemData: string, base64: string -> Option<seq<byte>>) returns (r: Option<seq<byte>>)
    ensures r == PemBytes(pemData, base64)
  {
    var text := Remove(pemData, '\r');
    var lines := Split(text, '\n');
    var bytes: seq<byte> := [];
    for i := 0 to |lines|
      invariant DecodeLines(lines[..i], base64) == Some(bytes)
    {
      assert lines[..i + 1][..i] == lines[..i];
      if !IsArmourLine(lines[i]) {
        var segment := base64(lines[i]);
        if segment.None? {
          DecodeLinesAppend(lines[..i + 1], lines[i + 1..], base64);
          assert lines[..i + 1] + lines[i + 1..] == lines;
          return None;
        }
        bytes := bytes + segment.value;
      }
    }
    assert lines[..|lines|] == lines;
    return Some(bytes);
  }
}
