/** `tmessage`: a typed, numbered text and its wire forms under the three protocols with code behind them. */
module Messages {
  import opened Bytes

  datatype Protocol = Line | Telnet | Basic

  datatype Kind = Action | Reply

  datatype Message = Message(kind: Kind, id: uint32, contents: seq<byte>)

  datatype Error = TooSmall(size: nat) | UnexpectedType(octet: byte)

  datatype Decoded = Ok(message: Message) | Err(error: Error)

  const CR: byte := 13
  const LF: byte := 10
  const TYPE_ACTION: byte := 65 // 'A'
  const TYPE_REPLY: byte := 82  // 'R'

  function Terminator(p: Protocol): seq<byte>
    requires !p.Basic?
  {
    if p.Line? then [LF] else [CR, LF]
  }

  /** The part of a basic message that its length prefix counts. */
  function Body(m: Message): seq<byte> {
    [if m.kind.Action? then TYPE_ACTION else TYPE_REPLY] + HostToNetwork(m.id) + m.contents
  }

  /** `tmessage::encode`; the cast to `uint32_t` drops the high bits of an oversized length. */
  function Encode(p: Protocol, m: Message): seq<byte> {
    match p
    case Line => m.contents + [LF]
    case Telnet => m.contents + [CR, LF]
    case Basic => HostToNetwork((|Body(m)| % WORD) as uint32) + Body(m)
  }

  /**
   * The decoding constructor of `tmessage`. Its argument still holds the line
   * terminator, but no longer the length prefix. A text shorter than its
   * terminator is kept whole: `substr` is then asked for almost 2^64 characters.
   */
  function Decode(p: Protocol, s: seq<byte>): Decoded {
    match p
    case Line => Ok(Message(Reply, 0, if |s| < 1 then s else s[..|s| - 1]))
    case Telnet => Ok(Message(Reply, 0, if |s| < 2 then s else s[..|s| - 2]))
    case Basic =>
      if |s| < 5 then Err(TooSmall(|s|))
      else if s[0] != TYPE_ACTION && s[0] != TYPE_REPLY then Err(UnexpectedType(s[0]))
      else Ok(Message(if s[0] == TYPE_ACTION then Action else Reply, NetworkToHost(s[1..]), s[5..]))
  }

  /** What a receiver gets to see of `m`: the line protocols carry neither type nor id. */
  function Received(p: Protocol, m: Message): Message {
    if p.Basic? then m else Message(Reply, 0, m.contents)
  }

  /** The octets of `Encode` that the receiver hands to `Decode`. */
  function Payload(p: Protocol, m: Message): seq<byte> {
    if p.Basic? then Encode(p, m)[4..] else Encode(p, m)
  }

  /** Decoding undoes encoding, for every message, framable or not. */
  lemma DecodeUndoesEncode(p: Protocol, m: Message)
    ensures Decode(p, Payload(p, m)) == Ok(Received(p, m))
  {
    if p.Basic? {
      var s := Payload(p, m);
      assert s == Body(m);
      assert s[1..] == HostToNetwork(m.id) + m.contents;
      assert s[1..][..4] == HostToNetwork(m.id);
      assert NetworkToHost(s[1..]) == NetworkToHost(HostToNetwork(m.id));
      WordRoundTrip(m.id);
      assert s[5..] == m.contents;
    }
  }

  /** What `async_read_until` hands over: a text with its terminator at the end. */
  predicate Terminated(p: Protocol, s: seq<byte>)
    requires !p.Basic?
  {
    |s| >= |Terminator(p)| && s[|s| - |Terminator(p)|..] == Terminator(p)
  }

  /** Encoding undoes decoding exactly for the payloads a receiver is handed; each basic one that decodes is one. */
  lemma EncodeUndoesDecode(p: Protocol, s: seq<byte>)
    requires Decode(p, s).Ok?
    ensures Payload(p, Decode(p, s).message) == s <==> p.Basic? || Terminated(p, s)
  {
    var m := Decode(p, s).message;
    if p.Basic? {
      OctetsRoundTrip(s[1..]);
      assert s[1..][..4] == s[1..5];
      assert s == [s[0]] + s[1..5] + s[5..];
    } else {
      var e, k := Payload(p, m), |Terminator(p)|;
      assert e[|e| - k..] == Terminator(p);
      if Terminated(p, s) {
        assert s[..|s| - k] + s[|s| - k..] == s;
      }
    }
  }

  /** Exactly which payloads decode, to what, and why others do not. */
  lemma DecodesIff(p: Protocol, s: seq<byte>)
    ensures !p.Basic? ==>
              var n := if p.Line? then 1 else 2;
              Decode(p, s) == Ok(Message(Reply, 0, s[..if |s| < n then |s| else |s| - n]))
    ensures p.Basic? ==> (Decode(p, s).Ok? <==> |s| >= 5 && (s[0] == 65 || s[0] == 82))
    ensures p.Basic? && |s| < 5 ==> Decode(p, s) == Err(TooSmall(|s|))
    ensures p.Basic? && |s| >= 5 && s[0] != 65 && s[0] != 82 ==> Decode(p, s) == Err(UnexpectedType(s[0]))
  {
    assert s[..|s|] == s;
  }

  /** The octets of a message on the wire, one by one: the length and the id go most significant octet first. */
  lemma Octets(m: Message)
    ensures Encode(Line, m) == m.contents + [10]
    ensures Encode(Telnet, m) == m.contents + [13, 10]
    ensures var e := Encode(Basic, m);
            && |e| == 9 + |m.contents| && e[9..] == m.contents
            && (|m.contents| + 5) % 0x1_0000_0000 ==
               e[0] as int * 0x100_0000 + e[1] as int * 0x1_0000 + e[2] as int * 0x100 + e[3] as int
            && e[4] == (if m.kind.Action? then 65 else 82)
            && m.id as int == e[5] as int * 0x100_0000 + e[6] as int * 0x1_0000 + e[7] as int * 0x100 + e[8] as int
  {
    var n := (|Body(m)| % WORD) as uint32;
    var e := Encode(Basic, m);
    assert e[..4] == HostToNetwork(n) && e[5..9] == HostToNetwork(m.id);
    WordRoundTrip(n);
    WordRoundTrip(m.id);
    hide HostToNetwork;
    assert e[0] == e[..4][0] && e[1] == e[..4][1] && e[2] == e[..4][2] && e[3] == e[..4][3];
    assert e[5] == e[5..9][0] && e[6] == e[5..9][1] && e[7] == e[5..9][2] && e[8] == e[5..9][3];
  }
}
