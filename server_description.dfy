/**
 * `ServerDescription`: what a server announces about itself in the reply
 * to an unconnected ping, and `toPacket`, which writes it as fields each
 * followed by `;`.
 */
module ServerDescription {
  import opened Wrappers
  import opened JavaText

  datatype Edition = MCPE | MCEE

  /** `Edition.name()`. */
  function EditionName(e: Edition): string
  {
    match e
    case MCPE => "MCPE"
    case MCEE => "MCEE"
  }

  /** The character `toPacket` puts after every field. */
  const SEPARATOR: char := ';'

  predicate NotSeparator(c: char) { c != SEPARATOR }

  /** A field that can be read back: it holds no separator. */
  predicate Plain(field: string)
  {
    forall k :: 0 <= k < |field| ==> field[k] != SEPARATOR
  }

  /**
   * A `StringJoiner(";", "", ";")` over at least one field: the fields
   * joined by `;`, then the suffix `;`, so that every field is followed
   * by one `;`.
   */
  function Terminated(fields: seq<string>): (s: string)
    ensures |fields| > 0 ==> s == Join(fields, [SEPARATOR]) + [SEPARATOR]
  {
    if |fields| == 0 then ""
    else
      var rest := Terminated(fields[1..]);
      if |fields| > 1 then
        assert Join(fields, [SEPARATOR]) + [SEPARATOR] == fields[0] + [SEPARATOR] + rest;
        fields[0] + [SEPARATOR] + rest
      else fields[0] + [SEPARATOR]
  }

  /** Reads a packet back into its fields; None when the text does not end with `;`. */
  function Fields(s: string): (r: Option<seq<string>>)
    decreases |s|
  {
    if |s| == 0 then Some([])
    else
      var e := ScanWhile(s, 0, NotSeparator);
      if e == |s| then None
      else
        match Fields(s[e + 1..])
        case None => None
        case Some(rest) => Some([s[..e]] + rest)
  }

  /** Reading back a packet of plain fields gives the fields. */
  lemma {:induction false} FieldsTerminated(fields: seq<string>)
    requires forall i :: 0 <= i < |fields| ==> Plain(fields[i])
    ensures Fields(Terminated(fields)) == Some(fields)
    decreases |fields|
  {
    if |fields| > 0 {
      var f := fields[0];
      var s := Terminated(fields);
      var rest := Terminated(fields[1..]);
      assert s == f + [SEPARATOR] + rest;
      assert s[..|f|] == f;
      assert |s| > 0 by {
        assert s[|f|] == SEPARATOR;
      }
      ScanWhileStopsAt(s, 0, |f|, NotSeparator);
      assert s[|f| + 1..] == rest;
      FieldsTerminated(fields[1..]);
      assert [f] + fields[1..] == fields;
    }
  }

  class ServerDescription {
    /** `gameMode.getType()` and `gameMode.getId()`; the game mode enum is not part of this model. */
    const gameModeType: string
    const gameModeNumeric: int
    const ipv4Port: int
    const ipv6Port: int
    const maximumPlayerCount: int
    const protocolVersion: int
    const serverUniqueId: int
    const versionName: string
    var description: string
    var edition: Edition
    var extras: seq<string>
    var playerCount: int
    var subDescription: string

    constructor (gameModeType: string, gameModeNumeric: int, ipv4Port: int, ipv6Port: int,
                 maximumPlayerCount: int, protocolVersion: int, serverUniqueId: int, versionName: string,
                 description: string, edition: Edition, extras: seq<string>, playerCount: int,
                 subDescription: string)
      ensures this.gameModeType == gameModeType && this.gameModeNumeric == gameModeNumeric
      ensures this.ipv4Port == ipv4Port && this.ipv6Port == ipv6Port
      ensures this.maximumPlayerCount == maximumPlayerCount && this.protocolVersion == protocolVersion
      ensures this.serverUniqueId == serverUniqueId && this.versionName == versionName
      ensures this.description == description && this.edition == edition && this.extras == extras
      ensures this.playerCount == playerCount && this.subDescription == subDescription
    {
      this.gameModeType := gameModeType;
      this.gameModeNumeric := gameModeNumeric;
      this.ipv4Port := ipv4Port;
      this.ipv6Port := ipv6Port;
      this.maximumPlayerCount := maximumPlayerCount;
      this.protocolVersion := protocolVersion;
      this.serverUniqueId := serverUniqueId;
      this.versionName := versionName;
      this.description := description;
      this.edition := edition;
      this.extras := extras;
      this.playerCount := playerCount;
      this.subDescription := subDescription;
    }

    /** `getExtras()`: a copy, which a `seq` value is: the fields the packet carries after the twelve fixed ones. */
    function GetExtras(): (r: seq<string>)
      reads this
      ensures r == PacketFields()[12..] && r == PacketFieldsCorrected()[12..]
    {
      extras
    }

    /** `setExtras(extras)`: stores a copy. */
    method SetExtras(extras: seq<string>)
      modifies this
      ensures this.extras == extras
      ensures GetExtras() == extras && PacketFields()[12..] == extras
      ensures description == old(description) && edition == old(edition)
      ensures playerCount == old(playerCount) && subDescription == old(subDescription)
    {
      this.extras := extras;
    }

    /** `setDescription(description)`. */
    method SetDescription(description: string)
      modifies this
      ensures this.description == description
      ensures edition == old(edition) && extras == old(extras)
      ensures playerCount == old(playerCount) && subDescription == old(subDescription)
    {
      this.description := description;
    }

    /** `setEdition(edition)`. */
    method SetEdition(edition: Edition)
      modifies this
      ensures this.edition == edition
      ensures description == old(description) && extras == old(extras)
      ensures playerCount == old(playerCount) && subDescription == old(subDescription)
    {
      this.edition := edition;
    }

    /** `setPlayerCount(playerCount)`. */
    method SetPlayerCount(playerCount: int)
      modifies this
      ensures this.playerCount == playerCount
      ensures description == old(description) && edition == old(edition)
      ensures extras == old(extras) && subDescription == old(subDescription)
    {
      this.playerCount := playerCount;
    }

    /** `setSubDescription(subDescription)`. */
    method SetSubDescription(subDescription: string)
      modifies this
      ensures this.subDescription == subDescription
      ensures description == old(description) && edition == old(edition)
      ensures extras == old(extras) && playerCount == old(playerCount)
    {
      this.subDescription := subDescription;
    }

    /** The fields `toPacket` writes, as written: the protocol version twice, the version name never. */
    function PacketFields(): (r: seq<string>)
      reads this
      ensures |r| == 12 + |extras| && r[12..] == extras
      ensures r[2] == IntToString(protocolVersion) && r[3] == IntToString(protocolVersion)
    {
      [EditionName(edition), description, IntToString(protocolVersion), IntToString(protocolVersion),
       IntToString(playerCount), IntToString(maximumPlayerCount), IntToString(serverUniqueId),
       subDescription, gameModeType, IntToString(gameModeNumeric), IntToString(ipv4Port),
       IntToString(ipv6Port)] + extras
    }

    /** The fields with the version name in the fourth place, after the protocol version. */
    function PacketFieldsCorrected(): (r: seq<string>)
      reads this
      ensures |r| == 12 + |extras| && r[12..] == extras
      ensures r[2] == IntToString(protocolVersion) && r[3] == versionName
    {
      [EditionName(edition), description, IntToString(protocolVersion), versionName,
       IntToString(playerCount), IntToString(maximumPlayerCount), IntToString(serverUniqueId),
       subDescription, gameModeType, IntToString(gameModeNumeric), IntToString(ipv4Port),
       IntToString(ipv6Port)] + extras
    }

    /** `toPacket()`, before the UTF-8 encoding. */
    function ToPacket(): (s: string)
      reads this
      ensures |s| > 0 && s[|s| - 1] == SEPARATOR
    {
      Terminated(PacketFields())
    }

    /** `toPacket()` with the version name written. */
    function ToPacketCorrected(): (s: string)
      reads this
      ensures |s| > 0 && s[|s| - 1] == SEPARATOR
    {
      Terminated(PacketFieldsCorrected())
    }
  }

  /** Numbers print without a separator. */
  lemma IntToStringPlain(n: int)
    ensures Plain(IntToString(n))
  {
    var s := IntToString(n);
    forall k | 0 <= k < |s| ensures s[k] != SEPARATOR {
      if n < 0 {
        assert s[1..] == NatToString(-n);
        if k > 0 {
          assert s[k] == NatToString(-n)[k - 1];
        }
      }
    }
  }

  /** The text fields a description holds hold no separator. */
  predicate PlainText(d: ServerDescription)
    reads d
  {
    Plain(d.description) && Plain(d.subDescription) && Plain(d.gameModeType) && Plain(d.versionName)
    && forall i :: 0 <= i < |d.extras| ==> Plain(d.extras[i])
  }

  /** The numbers a description prints hold no separator. */
  lemma NumbersPlain(d: ServerDescription)
    ensures Plain(IntToString(d.protocolVersion)) && Plain(IntToString(d.playerCount))
    ensures Plain(IntToString(d.maximumPlayerCount)) && Plain(IntToString(d.serverUniqueId))
    ensures Plain(IntToString(d.gameModeNumeric)) && Plain(IntToString(d.ipv4Port)) && Plain(IntToString(d.ipv6Port))
  {
    IntToStringPlain(d.protocolVersion);
    IntToStringPlain(d.playerCount);
    IntToStringPlain(d.maximumPlayerCount);
    IntToStringPlain(d.serverUniqueId);
    IntToStringPlain(d.gameModeNumeric);
    IntToStringPlain(d.ipv4Port);
    IntToStringPlain(d.ipv6Port);
  }

  /** Every field `toPacket` writes is plain when the text fields are. */
  lemma PacketFieldsPlain(d: ServerDescription)
    requires PlainText(d)
    ensures forall i :: 0 <= i < |d.PacketFields()| ==> Plain(d.PacketFields()[i])
  {
    var f := d.PacketFields();
    NumbersPlain(d);
    forall i | 0 <= i < |f| ensures Plain(f[i]) {
      if i >= 12 {
        assert f[i] == d.extras[i - 12];
      }
    }
  }

  /** Every field the corrected `toPacket` writes is plain when the text fields are. */
  lemma PacketFieldsCorrectedPlain(d: ServerDescription)
    requires PlainText(d)
    ensures forall i :: 0 <= i < |d.PacketFieldsCorrected()| ==> Plain(d.PacketFieldsCorrected()[i])
  {
    var f := d.PacketFieldsCorrected();
    NumbersPlain(d);
    forall i | 0 <= i < |f| ensures Plain(f[i]) {
      if i >= 12 {
        assert f[i] == d.extras[i - 12];
      }
    }
  }

  /**
   * Reading the packet back gives the fields in the order written: the
   * protocol version in the third and fourth places, the extras last.
   */
  lemma ToPacketReadsBack(d: ServerDescription)
    requires PlainText(d)
    ensures Fields(d.ToPacket()) == Some(d.PacketFields())
  {
    PacketFieldsPlain(d);
    FieldsTerminated(d.PacketFields());
  }

  /** As written, the version name is not in the fourth place unless it is the protocol number's text. */
  lemma VersionNameMissing(d: ServerDescription)
    requires PlainText(d) && d.versionName != IntToString(d.protocolVersion)
    ensures Fields(d.ToPacket()) == Some(d.PacketFields()) && d.PacketFields()[3] != d.versionName
  {
    ToPacketReadsBack(d);
  }

  /** Corrected, the fourth field read back is the version name. */
  lemma VersionNameCorrected(d: ServerDescription)
    requires PlainText(d)
    ensures Fields(d.ToPacketCorrected()) == Some(d.PacketFieldsCorrected())
    ensures d.PacketFieldsCorrected()[3] == d.versionName
  {
    PacketFieldsCorrectedPlain(d);
    FieldsTerminated(d.PacketFieldsCorrected());
  }
}
