/** The incremental parser as the program has it: a current state function, counters and buffers (src/Packets/Parser.cpp). */
module Parser {
  import opened Bytes
  import opened Constants
  import opened Options
  import S = ParserSpec
  import RemainingLength

  datatype ParserResult = AwaitData | Packet | ProtocolError

  // which state function is installed
  datatype StateFunction =
    | FixedHeader
    | RemainingLengthFixed
    | RemainingLengthNone
    | RemainingLengthVariable
    | VarHeaderConnack1
    | VarHeaderConnack2
    | VarHeaderPacketId1
    | VarHeaderPacketId2
    | VarHeaderTopicLength1
    | VarHeaderTopicLength2
    | VarHeaderTopic
    | PayloadSuback
    | PayloadPublish

  /** The packet record; its topic and SUBACK codes live in the parser's buffers. */
  datatype IncomingPacket = IncomingPacket(
    packetType: byte, remainingLength: nat, topicLength: nat, sessionPresent: byte, returnCode: byte, packetId: nat,
    payloadData: seq<byte>, payloadLength: nat, payloadIndex: nat, payloadTotal: nat)
  {
    function Reset(): IncomingPacket {
      this.(packetType := 0, topicLength := 0, packetId := 0, payloadIndex := 0, payloadLength := 0)
    }
  }

  class Parser {
    // the caller's buffer of the running parse call
    var data: seq<byte>
    var bytesRead: nat
    var bytePos: nat
    var parse: StateFunction
    var packet: IncomingPacket
    const remainingLengthRaw: array<byte>
    const topic: array<byte>
    const payloadBuffer: array<byte>

    predicate Buffers()
    {
      && remainingLengthRaw.Length == 4 && topic.Length == MAX_TOPIC_LENGTH + 1 && payloadBuffer.Length == PAYLOAD_BUFFER_SIZE
      && remainingLengthRaw != topic && remainingLengthRaw != payloadBuffer && topic != payloadBuffer
    }

    function TopicBytes(): seq<byte>
      requires bytePos <= topic.Length
      reads this`bytePos, this`packet, topic
    {
      if Kind(packet.packetType) == PUBLISH then topic[..bytePos] else []
    }

    // the payload total matters to the id states of PUBLISH and SUBACK only
    function PendingTotal(): nat
      reads this`packet
    {
      if Kind(packet.packetType) == PUBLISH || Kind(packet.packetType) == SUBACK then packet.payloadTotal else 0
    }

    /** Room in the buffers for the state function that is installed. */
    ghost predicate Fits()
      reads this`parse, this`bytePos, this`packet
    {
      match parse
      case RemainingLengthVariable => bytePos < 4
      case VarHeaderTopic => bytePos < MAX_TOPIC_LENGTH
      case PayloadSuback => bytePos < PAYLOAD_BUFFER_SIZE && Kind(packet.packetType) == SUBACK
      case VarHeaderPacketId1 => bytePos <= MAX_TOPIC_LENGTH && (Kind(packet.packetType) == SUBACK ==> bytePos == 0)
      case VarHeaderPacketId2 => bytePos <= MAX_TOPIC_LENGTH && (Kind(packet.packetType) == SUBACK ==> bytePos == 0)
      case PayloadPublish => bytePos <= MAX_TOPIC_LENGTH && Kind(packet.packetType) == PUBLISH
      case VarHeaderConnack1 => bytePos <= MAX_TOPIC_LENGTH && Kind(packet.packetType) == CONNACK
      case VarHeaderConnack2 => bytePos <= MAX_TOPIC_LENGTH && Kind(packet.packetType) == CONNACK
      case _ => bytePos <= MAX_TOPIC_LENGTH
    }

    /** What the fields say to the byte machine. */
    ghost function Abs(): S.State
      requires Buffers() && Fits()
      reads this`parse, this`bytePos, this`packet, remainingLengthRaw, topic, payloadBuffer
    {
      match parse
      case FixedHeader => S.AwaitHeader
      case RemainingLengthFixed => S.AwaitFixedLength(packet.packetType)
      case RemainingLengthNone => S.AwaitZeroLength(packet.packetType)
      case RemainingLengthVariable => S.AwaitLength(packet.packetType, remainingLengthRaw[..bytePos])
      case VarHeaderConnack1 => S.AwaitConnack1
      case VarHeaderConnack2 => S.AwaitConnack2(packet.sessionPresent)
      case VarHeaderPacketId1 => S.AwaitId1(packet.packetType, TopicBytes(), PendingTotal())
      case VarHeaderPacketId2 => S.AwaitId2(packet.packetType, TopicBytes(), PendingTotal(), HighByte(packet.packetId))
      case VarHeaderTopicLength1 => S.AwaitTopicLength1(packet.packetType, packet.remainingLength)
      case VarHeaderTopicLength2 => S.AwaitTopicLength2(packet.packetType, packet.remainingLength, HighByte(packet.topicLength))
      case VarHeaderTopic => S.InTopic(packet.packetType, packet.topicLength, packet.payloadTotal, topic[..bytePos])
      case PayloadSuback => S.InSuback(packet.packetId, packet.payloadTotal, payloadBuffer[..bytePos])
      case PayloadPublish =>
        S.InPayload(packet.packetType, topic[..bytePos], packet.packetId, packet.payloadTotal, packet.payloadIndex + packet.payloadLength)
    }

    /** Ready to parse: consistent buffers and fields. After a protocol error only `Reset` brings this back. */
    ghost predicate Valid()
      reads this`parse, this`bytePos, this`packet, remainingLengthRaw, topic, payloadBuffer
    {
      && Buffers() && Fits() && S.WellFormed(Abs())
      // the packet id and topic length are or-ed together from zero, and the fragment counters start at zero
      && (BeforeId() ==> packet.packetId == 0)
      && (parse.VarHeaderPacketId2? ==> packet.packetId % 256 == 0 && packet.packetId < 65536)
      && (parse.VarHeaderTopicLength2? ==> packet.topicLength % 256 == 0 && packet.topicLength < 65536)
      && (Kind(packet.packetType) == PUBLISH && (BeforeId() || parse.VarHeaderPacketId2?) ==> packet.payloadIndex == 0 && packet.payloadLength == 0)
    }

    // between the header byte and the first packet id byte
    ghost predicate BeforeId()
      reads this`parse
    {
      parse in {RemainingLengthFixed, RemainingLengthVariable, VarHeaderTopicLength1, VarHeaderTopicLength2, VarHeaderTopic, VarHeaderPacketId1}
    }

    /** The packet the accessor hands out after a call returned `Packet`. */
    function View(): S.Event
      requires Buffers() && bytePos <= MAX_TOPIC_LENGTH
      reads this`parse, this`bytePos, this`packet, remainingLengthRaw, topic, payloadBuffer
    {
      var kind := Kind(packet.packetType);
      if kind == CONNACK then S.Connack(packet.sessionPresent, packet.returnCode)
      else if kind == PUBLISH then
        S.Publish(packet.packetType, topic[..bytePos], packet.packetId, packet.payloadIndex, packet.payloadData, packet.payloadTotal)
      else if kind == SUBACK then S.Suback(packet.packetId, payloadBuffer[..Min(packet.payloadTotal, PAYLOAD_BUFFER_SIZE)])
      else if kind == PINGRESP then S.Pingresp
      else S.Ack(packet.packetType, packet.packetId)
    }

    // result, new state and packet of a state function, in the byte machine's terms
    ghost predicate Shows(r: ParserResult, o: S.Outcome)
      reads this`parse, this`bytePos, this`packet, remainingLengthRaw, topic, payloadBuffer
    {
      match r
      case ProtocolError => Buffers() && o == S.Fault()
      case AwaitData => Valid() && o == S.Wait(Abs())
      case Packet => Valid() && bytePos <= MAX_TOPIC_LENGTH && o == S.Outcome(Abs(), Some(View()))
    }

    constructor ()
      ensures Valid() && fresh(this) && fresh(remainingLengthRaw) && fresh(topic) && fresh(payloadBuffer)
      ensures Abs() == S.AwaitHeader
    {
      data, bytesRead, bytePos, parse := [], 0, 0, FixedHeader;
      packet := IncomingPacket(0, 0, 0, 0, 0, 0, [], 0, 0, 0);
      remainingLengthRaw := new byte[4](_ => 0);
      topic := new byte[MAX_TOPIC_LENGTH + 1](_ => 0);
      payloadBuffer := new byte[PAYLOAD_BUFFER_SIZE](_ => 0);
    }

    method Reset()
      requires Buffers()
      modifies this
      ensures Valid() && Abs() == S.AwaitHeader
    {
      parse := FixedHeader;
      bytesRead := 0;
      bytePos := 0;
      packet := packet.Reset();
    }

    method OnFixedHeader() returns (r: ParserResult)
      requires Valid() && parse.FixedHeader? && bytesRead < |data|
      modifies this
      ensures data == old(data) && bytesRead == old(bytesRead)
      ensures Shows(r, S.OnHeader(data[bytesRead]))
    {
      S.HeaderKinds(data[bytesRead]);
      hide Kind, Flags, HighByte, S.CarriesId;
      packet := packet.Reset();
      packet := packet.(packetType := data[bytesRead]);
      if Kind(packet.packetType) == PUBLISH {
        var headerFlags := Flags(packet.packetType);
        if headerFlags <= 5 || headerFlags >= 10 {
          parse := RemainingLengthVariable;
          bytePos := 0;
        } else {
          return ProtocolError;
        }
      } else if packet.packetType == CONNACK || packet.packetType == PUBACK || packet.packetType == PUBREC || packet.packetType == PUBREL + 2
             || packet.packetType == PUBCOMP || packet.packetType == UNSUBACK {
        parse := RemainingLengthFixed;
      } else if packet.packetType == SUBACK {
        parse := RemainingLengthVariable;
        bytePos := 0;
      } else if packet.packetType == PINGRESP {
        parse := RemainingLengthNone;
      } else {
        return ProtocolError;
      }
      return AwaitData;
    }

    method OnRemainingLengthFixed() returns (r: ParserResult)
      requires Valid() && parse.RemainingLengthFixed? && bytesRead < |data|
      modifies this
      ensures data == old(data) && bytesRead == old(bytesRead)
      ensures Shows(r, S.Step(old(Abs()), data[bytesRead]))
    {
      packet := packet.(remainingLength := data[bytesRead]);
      if packet.remainingLength == 2 {
        if Kind(packet.packetType) != CONNACK {
          parse := VarHeaderPacketId1;
        } else {
          parse := VarHeaderConnack1;
        }
        return AwaitData;
      }
      parse := FixedHeader;
      return ProtocolError;
    }

    method DecodeRaw() returns (length: nat)
      requires Buffers() && bytePos < 4 && remainingLengthRaw[bytePos] < 128
      requires forall i :: 0 <= i < bytePos ==> remainingLengthRaw[i] >= 128
      ensures length == RemainingLength.Decode(remainingLengthRaw[..bytePos + 1])
    {
      RemainingLength.DecodeInBuffer(remainingLengthRaw[..], bytePos);
      assert remainingLengthRaw[..][..bytePos + 1] == remainingLengthRaw[..bytePos + 1];
      length := RemainingLength.DecodeRemainingLength(remainingLengthRaw[..]);
    }

    method OnRemainingLengthVariable() returns (r: ParserResult)
      requires Valid() && parse.RemainingLengthVariable? && bytesRead < |data|
      modifies this, remainingLengthRaw
      ensures data == old(data) && bytesRead == old(bytesRead)
      ensures Shows(r, S.OnLength(old(packet.packetType), old(remainingLengthRaw[..bytePos]), data[bytesRead]))
    {
      InLengthState();
      hide Valid, Fits, Abs, Shows, Kind, RemainingLength.Decode, RemainingLength.Terminator;
      ghost var raw := remainingLengthRaw[..bytePos];
      remainingLengthRaw[bytePos] := data[bytesRead];
      assert remainingLengthRaw[..bytePos + 1] == raw + [data[bytesRead]];
      if remainingLengthRaw[bytePos] >= 128 {
        r := MoreLength();
        return;
      }
      var decoded := DecodeRaw();
      r := TakeLength(decoded);
    }

    lemma InLengthState()
      requires Valid() && parse.RemainingLengthVariable?
      ensures Buffers() && bytePos < 4 && (forall i :: 0 <= i < bytePos ==> remainingLengthRaw[i] >= 128)
      ensures (Kind(packet.packetType) == PUBLISH || packet.packetType == SUBACK) && packet.packetId == 0
      ensures Kind(packet.packetType) == PUBLISH ==> packet.payloadIndex == 0 && packet.payloadLength == 0
    {
    }

    // another byte follows, unless there have been four
    method MoreLength() returns (r: ParserResult)
      requires Buffers() && parse.RemainingLengthVariable? && bytePos < 4
      requires (Kind(packet.packetType) == PUBLISH || packet.packetType == SUBACK) && packet.packetId == 0
      requires Kind(packet.packetType) == PUBLISH ==> packet.payloadIndex == 0 && packet.payloadLength == 0
      requires forall i :: 0 <= i <= bytePos ==> remainingLengthRaw[i] >= 128
      modifies this`bytePos
      ensures var raw := remainingLengthRaw[..old(bytePos) + 1];
              Shows(r, if |raw| == 4 then S.Fault() else S.Wait(S.AwaitLength(packet.packetType, raw)))
    {
      bytePos := bytePos + 1;
      if bytePos == 4 {
        return ProtocolError;
      } else {
        return AwaitData;
      }
    }

    // the length field is complete
    method TakeLength(decoded: nat) returns (r: ParserResult)
      requires Buffers() && parse.RemainingLengthVariable? && bytePos < 4
      requires (Kind(packet.packetType) == PUBLISH || packet.packetType == SUBACK) && packet.packetId == 0
      requires Kind(packet.packetType) == PUBLISH ==> packet.payloadIndex == 0 && packet.payloadLength == 0
      modifies this`packet, this`parse, this`bytePos
      ensures Shows(r, if Kind(old(packet.packetType)) == PUBLISH then S.Wait(S.AwaitTopicLength1(old(packet.packetType), decoded))
                       else if 0 < decoded - 2 < PAYLOAD_BUFFER_SIZE then S.Wait(S.AwaitId1(old(packet.packetType), [], decoded - 2))
                       else S.Fault())
    {
      packet := packet.(remainingLength := decoded);
      if Kind(packet.packetType) == PUBLISH {
        parse := VarHeaderTopicLength1;
        return AwaitData;
      } else {
        var payloadSize: int := packet.remainingLength - 2;
        if 0 < payloadSize && payloadSize < PAYLOAD_BUFFER_SIZE {
          bytePos := 0;
          packet := packet.(payloadIndex := 0, payloadLength := payloadSize, payloadTotal := payloadSize);
          parse := VarHeaderPacketId1;
          return AwaitData;
        }
      }
      parse := FixedHeader;
      return ProtocolError;
    }

    method OnRemainingLengthNone() returns (r: ParserResult)
      requires Valid() && parse.RemainingLengthNone? && bytesRead < |data|
      modifies this
      ensures data == old(data) && bytesRead == old(bytesRead)
      ensures Shows(r, S.Step(old(Abs()), data[bytesRead]))
    {
      packet := packet.(remainingLength := data[bytesRead]);
      parse := FixedHeader;
      return if packet.remainingLength == 0 then Packet else ProtocolError;
    }

    method OnVarHeaderConnack1() returns (r: ParserResult)
      requires Valid() && parse.VarHeaderConnack1? && bytesRead < |data|
      modifies this
      ensures data == old(data) && bytesRead == old(bytesRead)
      ensures Shows(r, S.Step(old(Abs()), data[bytesRead]))
    {
      if data[bytesRead] < 2 {
        packet := packet.(sessionPresent := data[bytesRead]);
        parse := VarHeaderConnack2;
        return AwaitData;
      }
      parse := FixedHeader;
      return ProtocolError;
    }

    method OnVarHeaderConnack2() returns (r: ParserResult)
      requires Valid() && parse.VarHeaderConnack2? && bytesRead < |data|
      modifies this
      ensures data == old(data) && bytesRead == old(bytesRead)
      ensures Shows(r, S.Step(old(Abs()), data[bytesRead]))
    {
      parse := FixedHeader;
      if data[bytesRead] <= 5 {
        packet := packet.(returnCode := data[bytesRead]);
        return Packet;
      }
      return ProtocolError;
    }

    method OnVarHeaderPacketId1() returns (r: ParserResult)
      requires Valid() && parse.VarHeaderPacketId1? && bytesRead < |data|
      modifies this
      ensures data == old(data) && bytesRead == old(bytesRead)
      ensures Shows(r, S.Step(old(Abs()), data[bytesRead]))
    {
      hide HighByte, Kind, BitOr;
      BitOrTwoBytes(data[bytesRead], 0);
      HighByteOf(data[bytesRead]);
      var b: int := data[bytesRead];
      packet := packet.(packetId := BitOr(packet.packetId, b * 256));
      parse := VarHeaderPacketId2;
      return AwaitData;
    }

    method OnVarHeaderPacketId2() returns (r: ParserResult)
      requires Valid() && parse.VarHeaderPacketId2? && bytesRead < |data|
      modifies this
      ensures data == old(data) && bytesRead == old(bytesRead)
      ensures Shows(r, S.OnId2(old(packet.packetType), old(TopicBytes()), old(PendingTotal()), old(HighByte(packet.packetId)), data[bytesRead]))
    {
      hide HighByte, Kind, SizeSub, BitOr;
      BitOrTwoBytes(HighByte(packet.packetId), data[bytesRead]);
      S.HeaderKinds(packet.packetType);
      packet := packet.(packetId := BitOr(packet.packetId, data[bytesRead]));
      parse := FixedHeader;
      if packet.packetId == 0 {
        return ProtocolError;
      }
      if Kind(packet.packetType) == SUBACK {
        parse := PayloadSuback;
        return AwaitData;
      } else if Kind(packet.packetType) == PUBLISH {
        packet := packet.(payloadTotal := SizeSub(packet.payloadTotal, 2));
        r := BeginPayload();
      } else {
        return Packet;
      }
    }

    // the header of a PUBLISH is complete
    method BeginPayload() returns (r: ParserResult)
      requires Buffers() && Kind(packet.packetType) == PUBLISH && bytePos <= MAX_TOPIC_LENGTH
      requires packet.payloadIndex == 0 && packet.payloadLength == 0
      modifies this`parse, this`packet
      ensures var p := old(packet);
              Shows(r, if p.payloadTotal == 0 then S.Emit(S.Publish(p.packetType, topic[..bytePos], p.packetId, 0, [], 0))
                       else S.Wait(S.InPayload(p.packetType, topic[..bytePos], p.packetId, p.payloadTotal, 0)))
      ensures !parse.VarHeaderTopic?
    {
      hide Kind, HighByte;
      if packet.payloadTotal == 0 {
        parse := FixedHeader;
        packet := packet.(payloadData := []);
        return Packet;
      }
      parse := PayloadPublish;
      return AwaitData;
    }

    method OnVarHeaderTopicLength1() returns (r: ParserResult)
      requires Valid() && parse.VarHeaderTopicLength1? && bytesRead < |data|
      modifies this
      ensures data == old(data) && bytesRead == old(bytesRead)
      ensures Shows(r, S.Step(old(Abs()), data[bytesRead]))
    {
      HighByteOf(data[bytesRead]);
      hide HighByte, Kind;
      var b: int := data[bytesRead];
      packet := packet.(topicLength := b * 256);
      parse := VarHeaderTopicLength2;
      return AwaitData;
    }

    method OnVarHeaderTopicLength2() returns (r: ParserResult)
      requires Valid() && parse.VarHeaderTopicLength2? && bytesRead < |data|
      modifies this
      ensures data == old(data) && bytesRead == old(bytesRead)
      ensures Shows(r, S.OnTopicLength2(old(packet.packetType), old(packet.remainingLength), old(HighByte(packet.topicLength)), data[bytesRead]))
    {
      hide HighByte, Kind, QosBits, SizeSub, BitOr;
      BitOrTwoBytes(HighByte(packet.topicLength), data[bytesRead]);
      packet := packet.(topicLength := BitOr(packet.topicLength, data[bytesRead]));
      var maxTopicLength := SizeSub(packet.remainingLength, 2 + (if QosBits(packet.packetType) != 0 then 2 else 0));
      if packet.topicLength <= maxTopicLength {
        parse := VarHeaderTopic;
        bytePos := 0;
        packet := packet.(payloadTotal := SizeSub(packet.remainingLength, 2 + packet.topicLength));
        return AwaitData;
      }
      parse := FixedHeader;
      return ProtocolError;
    }

    method OnVarHeaderTopic() returns (r: ParserResult)
      requires Valid() && parse.VarHeaderTopic? && bytesRead < |data|
      modifies this, topic
      ensures data == old(data) && bytesRead == old(bytesRead)
      ensures Shows(r, S.OnTopic(old(packet.packetType), old(packet.topicLength), old(packet.payloadTotal), old(topic[..bytePos]), data[bytesRead]))
      ensures r == Packet || !parse.VarHeaderTopic? ==> topic[bytePos] == 0  // c-string delimiter
    {
      hide Kind, HighByte, QosBits, S.HasFixedLength;
      ghost var before := topic[..bytePos];
      topic[bytePos] := data[bytesRead];
      bytePos := bytePos + 1;
      if bytePos == packet.topicLength || bytePos == MAX_TOPIC_LENGTH {
        topic[bytePos] := 0;
        assert topic[..bytePos] == before + [data[bytesRead]];
        if QosBits(packet.packetType) != 0 {
          parse := VarHeaderPacketId1;
        } else {
          r := BeginPayload();
          return;
        }
      }
      assert topic[..bytePos] == before + [data[bytesRead]];
      return AwaitData;
    }

    method OnPayloadSuback() returns (r: ParserResult)
      requires Valid() && parse.PayloadSuback? && bytesRead < |data|
      modifies this, payloadBuffer
      ensures data == old(data) && bytesRead == old(bytesRead)
      ensures Shows(r, S.OnSuback(old(packet.packetId), old(packet.payloadTotal), old(payloadBuffer[..bytePos]), data[bytesRead]))
    {
      hide Kind, HighByte, S.CarriesId, S.HasFixedLength;
      ghost var before := payloadBuffer[..bytePos];
      if data[bytesRead] < 3 || data[bytesRead] == 128 {
        payloadBuffer[bytePos] := data[bytesRead];
        bytePos := bytePos + 1;
      } else {
        parse := FixedHeader;
        return ProtocolError;
      }
      assert payloadBuffer[..bytePos] == before + [data[bytesRead]];
      if bytePos == packet.payloadTotal {
        parse := FixedHeader;
        return Packet;
      }
      return AwaitData;
    }

    // Takes a run of payload bytes; leaves bytesRead one short of the run for the loop's own increment.
    method OnPayloadPublish() returns (r: ParserResult)
      requires Valid() && parse.PayloadPublish? && bytesRead < |data|
      modifies this
      ensures data == old(data)
      ensures var n := Min(|data| - old(bytesRead), old(packet.payloadTotal - packet.payloadIndex - packet.payloadLength));
              && n >= 1 && bytesRead + 1 == old(bytesRead) + n
              && Shows(r, S.OnPayload(packet.packetType, old(topic[..bytePos]), packet.packetId, packet.payloadTotal,
                                      old(packet.payloadIndex + packet.payloadLength), data[old(bytesRead)..old(bytesRead) + n]))
      ensures packet.packetType == old(packet.packetType) && packet.packetId == old(packet.packetId)
      ensures packet.payloadTotal == old(packet.payloadTotal)
      ensures r == Packet
    {
      InPayloadState();
      hide Shows, Fits, Valid, Abs, View, S.OnPayload;
      packet := packet.(payloadIndex := packet.payloadIndex + packet.payloadLength);
      packet := packet.(payloadLength := Min(|data| - bytesRead, packet.payloadTotal - packet.payloadIndex));
      packet := packet.(payloadData := data[bytesRead..bytesRead + packet.payloadLength]);
      bytesRead := bytesRead + packet.payloadLength - 1;
      r := ReportRun();
    }

    // the fragment is complete, and with it perhaps the packet
    method ReportRun() returns (r: ParserResult)
      requires Buffers() && parse.PayloadPublish? && Kind(packet.packetType) == PUBLISH && bytePos <= MAX_TOPIC_LENGTH
      requires packet.payloadLength == |packet.payloadData| && packet.payloadIndex + packet.payloadLength <= packet.payloadTotal
      modifies this`parse
      ensures Shows(r, S.OnPayload(packet.packetType, topic[..bytePos], packet.packetId, packet.payloadTotal,
                                   packet.payloadIndex, packet.payloadData))
      ensures r == Packet
    {
      hide Kind, HighByte;
      if packet.payloadIndex + packet.payloadLength == packet.payloadTotal {
        parse := FixedHeader;
      }
      return Packet;
    }

    lemma InPayloadState()
      requires Valid() && parse.PayloadPublish?
      ensures Kind(packet.packetType) == PUBLISH && bytePos <= MAX_TOPIC_LENGTH
      ensures packet.payloadIndex + packet.payloadLength < packet.payloadTotal
    {
    }

    // the call through the state function pointer, for the states that take one byte
    method Dispatch() returns (r: ParserResult)
      requires Valid() && !parse.PayloadPublish? && bytesRead < |data|
      modifies this, remainingLengthRaw, topic, payloadBuffer
      ensures data == old(data) && bytesRead == old(bytesRead)
      ensures Shows(r, S.Step(old(Abs()), data[bytesRead]))
    {
      hide S.WellFormed, S.OnHeader, S.OnLength, S.OnId2, S.OnTopicLength2, S.OnTopic, S.OnSuback, S.CarriesId, Kind, HighByte;
      match parse
      case FixedHeader => r := OnFixedHeader();
      case RemainingLengthFixed => r := OnRemainingLengthFixed();
      case RemainingLengthNone => r := OnRemainingLengthNone();
      case RemainingLengthVariable => r := OnRemainingLengthVariable();
      case VarHeaderConnack1 => r := OnVarHeaderConnack1();
      case VarHeaderConnack2 => r := OnVarHeaderConnack2();
      case VarHeaderPacketId1 => r := OnVarHeaderPacketId1();
      case VarHeaderPacketId2 => r := OnVarHeaderPacketId2();
      case VarHeaderTopicLength1 => r := OnVarHeaderTopicLength1();
      case VarHeaderTopicLength2 => r := OnVarHeaderTopicLength2();
      case VarHeaderTopic => r := OnVarHeaderTopic();
      case PayloadSuback => r := OnPayloadSuback();
    }

    // bytes the installed state function takes from what is left of the buffer
    ghost function Taken(): (n: nat)
      requires Valid() && bytesRead < |data|
      reads this`data, this`bytesRead, this`parse, this`bytePos, this`packet, remainingLengthRaw, topic, payloadBuffer
      ensures 1 <= n <= |data| - bytesRead
    {
      if parse.PayloadPublish? then Min(|data| - bytesRead, packet.payloadTotal - packet.payloadIndex - packet.payloadLength) else 1
    }

    // one turn of the parse loop
    method Turn() returns (r: ParserResult)
      requires Valid() && bytesRead < |data|
      modifies this, remainingLengthRaw, topic, payloadBuffer
      ensures data == old(data) && bytesRead == old(bytesRead) + old(Taken())
      ensures var s := old(Abs());
              Shows(r, if s.InPayload? then S.OnPayload(s.header, s.topic, s.id, s.total, s.got, data[old(bytesRead)..bytesRead])
                       else S.Step(s, data[old(bytesRead)]))
    {
      hide S.Step, S.OnPayload, S.WellFormed, Kind;
      if parse.PayloadPublish? {
        r := OnPayloadPublish();
      } else {
        r := Dispatch();
      }
      bytesRead := bytesRead + 1;
    }

    method Begin(buf: seq<byte>)
      requires Valid()
      modifies this`data, this`bytesRead
      ensures Valid() && Abs() == old(Abs())
      ensures data == buf && bytesRead == 0
    {
      data := buf;
      bytesRead := 0;
    }

    // the loop has read some of the buffer, and `start`, what the call has to do, is still to be reached or has been
    ghost predicate Along(buf: seq<byte>, start: S.Parsed, r: ParserResult)
      reads this`data, this`bytesRead, this`parse, this`bytePos, this`packet, remainingLengthRaw, topic, payloadBuffer
    {
      data == buf && bytesRead <= |data| && Buffers() &&
      if r == AwaitData then
        Valid() && var p := S.Parse(Abs(), buf[bytesRead..]); start == p.(consumed := p.consumed + bytesRead)
      else
        start.consumed == bytesRead && Shows(r, S.Outcome(start.state, start.event))
    }

    method ParseTurn(buf: seq<byte>, ghost start: S.Parsed) returns (r: ParserResult)
      requires Along(buf, start, AwaitData) && bytesRead < |data|
      modifies this, remainingLengthRaw, topic, payloadBuffer
      ensures data == buf && old(bytesRead) < bytesRead <= |data| && Along(buf, start, r)
    {
      hide S.Step, S.WellFormed, S.Parse, Kind, Fits;
      ghost var at, s, rest := bytesRead, Abs(), buf[bytesRead..];
      S.ParseUnfold(s, rest);
      r := Turn();
      assert rest[1..] == buf[at + 1..];
      assert rest[..bytesRead - at] == buf[at..bytesRead];
    }

    /**
      One call on a buffer: the loop runs until an event, an error or the end of the buffer, and consumes at
      least one byte of a non-empty buffer and never more than there are.
     */
    method Parse(buf: seq<byte>) returns (r: ParserResult, consumed: nat)
      requires Valid()
      modifies this, remainingLengthRaw, topic, payloadBuffer
      ensures var p := S.Parse(old(Abs()), buf);
              consumed == p.consumed && Shows(r, S.Outcome(p.state, p.event))
      ensures buf != [] ==> 1 <= consumed <= |buf|
    {
      ghost var start := S.Parse(Abs(), buf);
      Begin(buf);
      r := AwaitData;
      assert buf[0..] == buf;
      assert Along(buf, start, r);
      hide S.Parse, Valid, Buffers, Shows, Abs, Along;
      while r == AwaitData && bytesRead < |data|
        invariant data == buf && bytesRead <= |data| && Along(buf, start, r)
        decreases |data| - bytesRead
      {
        r := ParseTurn(buf, start);
      }
      consumed := bytesRead;
      ParseEnds(buf, start, r);
    }

    lemma ParseEnds(buf: seq<byte>, start: S.Parsed, r: ParserResult)
      requires Along(buf, start, r) && (r == AwaitData ==> bytesRead == |data|)
      ensures start.consumed == bytesRead && Shows(r, S.Outcome(start.state, start.event))
    {
      if r == AwaitData {
        assert buf[bytesRead..] == [];
        S.ParseEmpty(Abs());
      }
    }
  }
}
