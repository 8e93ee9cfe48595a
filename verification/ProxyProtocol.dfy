/** The PROXY protocol header (sections 2.1 and 2.2 of the HAProxy PROXY protocol
    specification), read from a connection that delivers its bytes in chunks. The
    outcome is a function of the byte stream alone. */
module ProxyProtocol {
  import opened Ascii
  import opened Optional

  type Byte = b: int | 0 <= b < 256

  const PREFIX: seq<Byte> := [0x50, 0x52, 0x4F, 0x58, 0x59, 0x20]
  const SIGNATURE: seq<Byte> := [0x0D, 0x0A, 0x0D, 0x0A, 0x00, 0x0D, 0x0A, 0x51, 0x55, 0x49, 0x54, 0x0A]
  const CR: Byte := 0x0D
  const LF: Byte := 0x0A
  /** What a version 1 line may take after its prefix, CRLF included. */
  const MAX_REMAINING := 107 - 6

  datatype Address = Address(srcIP: seq<Byte>, srcPort: nat, dstIP: seq<Byte>, dstPort: nat)

  datatype Error = ReadFailed | LineTooLong | BadFormat | BadAddress | BadPort | WrongFamily | BadProtocol
                 | BadSignature | BadVersion | UnknownCommand | Unsupported | TooShort

  /** A header with its address, if it has one, and the bytes after it; bytes
      that start no header; or an error. */
  datatype Outcome =
    | Header(address: Option<Address>, rest: seq<Byte>)
    | Unrecognized(rest: seq<Byte>)
    | Failed(error: Error)

  /** How a line splits into fields and what text denotes an address. */
  datatype Text = Text(fields: seq<Byte> -> seq<string>, parseIP: string -> Option<seq<Byte>>)

  // ---------- The stream read as a whole ----------

  predicate CrlfAt(s: seq<Byte>, i: nat) {
    i + 1 < |s| && s[i] == CR && s[i + 1] == LF
  }

  /** Where the first CRLF is, or the length if there is none. */
  function FirstCrlf(s: seq<Byte>): (i: nat)
    ensures i == |s| || i + 2 <= |s|
  {
    if s == [] || CrlfAt(s, 0) then 0 else 1 + FirstCrlf(s[1..])
  }

  lemma {:induction false} FirstCrlfIsLeast(s: seq<Byte>, i: nat)
    requires i <= |s| && (forall j: nat :: j < i ==> !CrlfAt(s, j)) && (i < |s| ==> CrlfAt(s, i))
    ensures FirstCrlf(s) == i
    decreases |s|
  {
    if i > 0 {
      forall j: nat | j < i - 1 ensures !CrlfAt(s[1..], j) {
        assert !CrlfAt(s, j + 1);
      }
      assert !CrlfAt(s, 0);
      FirstCrlfIsLeast(s[1..], i - 1);
    }
  }

  /** A port: decimal digits, at least one, within 16 bits. */
  function Port(s: string): Option<nat> {
    if s == [] then None
    else match ValueOf(s)
      case Natural(v) => if v > 65535 then None else Some(v)
      case NotNatural => None
  }

  /** A version 1 line, without prefix and CRLF. */
  function ParseLine(text: Text, line: seq<Byte>, rest: seq<Byte>): Outcome {
    var parts := text.fields(line);
    if |parts| < 1 then Failed(BadFormat)
    else if parts[0] == "UNKNOWN" then Header(None, rest)
    else if |parts| != 5 then Failed(BadFormat)
    else
      var src, dst := text.parseIP(parts[1]), text.parseIP(parts[2]);
      var srcPort, dstPort := Port(parts[3]), Port(parts[4]);
      if src.None? || dst.None? then Failed(BadAddress)
      else if srcPort.None? || dstPort.None? then Failed(BadPort)
      else if parts[0] == "TCP4" && (':' in parts[1] || ':' in parts[2]) then Failed(WrongFamily)
      else if parts[0] == "TCP6" && (':' !in parts[1] || ':' !in parts[2]) then Failed(WrongFamily)
      else if parts[0] != "TCP4" && parts[0] != "TCP6" then Failed(BadProtocol)
      else Header(Some(Address(src.value, srcPort.value, dst.value, dstPort.value)), rest)
  }

  function Window(s: seq<Byte>): seq<Byte> {
    if |s| <= MAX_REMAINING then s else s[..MAX_REMAINING]
  }

  /** The stream after the version 1 prefix. */
  function ParseV1(text: Text, s: seq<Byte>): Outcome {
    var i := FirstCrlf(Window(s));
    if i < |Window(s)| then ParseLine(text, s[..i], s[i + 2..])
    else if |s| < MAX_REMAINING then Failed(ReadFailed)
    else Failed(LineTooLong)
  }

  function Word(hi: Byte, lo: Byte): nat {
    256 * hi + lo
  }

  function AddressOf(ipLen: nat, data: seq<Byte>): Address
    requires 2 * ipLen + 4 <= |data|
  {
    Address(data[..ipLen], Word(data[2 * ipLen], data[2 * ipLen + 1]),
            data[ipLen..2 * ipLen], Word(data[2 * ipLen + 2], data[2 * ipLen + 3]))
  }

  /** The stream after the version 2 signature and the four bytes that follow it. */
  function ParseV2(verCmd: Byte, famProto: Byte, addrLen: nat, s: seq<Byte>): Outcome {
    if verCmd / 16 != 2 then Failed(BadVersion)
    else if verCmd % 16 == 0 then Skip(addrLen, s)
    else if verCmd % 16 != 1 then Failed(UnknownCommand)
    else if famProto % 16 != 1 then Failed(Unsupported)
    else if famProto / 16 == 1 then Addressed(4, addrLen, s)
    else if famProto / 16 == 2 then Addressed(16, addrLen, s)
    else if famProto / 16 == 0 then Skip(addrLen, s)
    else Failed(Unsupported)
  }

  function Skip(addrLen: nat, s: seq<Byte>): Outcome {
    if |s| < addrLen then Failed(ReadFailed) else Header(None, s[addrLen..])
  }

  function Addressed(ipLen: nat, addrLen: nat, s: seq<Byte>): Outcome {
    if addrLen < 2 * ipLen + 4 then Failed(TooShort)
    else if |s| < addrLen then Failed(ReadFailed)
    else Header(Some(AddressOf(ipLen, s[..addrLen])), s[addrLen..])
  }

  /** What a whole stream denotes. */
  function Parse(text: Text, s: seq<Byte>): Outcome {
    if |s| < 6 then Failed(ReadFailed)
    else if s[..6] == PREFIX then ParseV1(text, s[6..])
    else if s[..6] != SIGNATURE[..6] then Unrecognized(s)
    else if |s| < 12 then Failed(ReadFailed)
    else if s[..12] != SIGNATURE then Failed(BadSignature)
    else if |s| < 16 then Failed(ReadFailed)
    else ParseV2(s[12], s[13], Word(s[14], s[15]), s[16..])
  }

  // ---------- The connection ----------

  function Concat(chunks: seq<seq<Byte>>): seq<Byte> {
    if chunks == [] then [] else chunks[0] + Concat(chunks[1..])
  }

  /** The chunks after the first `n` bytes of the first one are taken. */
  function Taken(chunks: seq<seq<Byte>>, n: nat): (r: seq<seq<Byte>>)
    requires chunks != [] && n <= |chunks[0]|
    ensures chunks[0][..n] + Concat(r) == Concat(chunks)
    ensures (forall c :: c in chunks ==> |c| > 0) ==> forall c :: c in r ==> |c| > 0
  {
    var c := chunks[0];
    assert c == c[..n] + c[n..];
    if n == |c| then
      assert c[..n] == c;
      chunks[1..]
    else
      var r := [c[n..]] + chunks[1..];
      assert r[1..] == chunks[1..];
      assert Concat(r) == c[n..] + Concat(chunks[1..]);
      assert c[..n] + (c[n..] + Concat(chunks[1..])) == c + Concat(chunks[1..]);
      r
  }

  /** Bytes arrive in chunks; a read takes at most one of them. */
  class Conn {
    var chunks: seq<seq<Byte>>

    ghost predicate Valid()
      reads this
    {
      forall c :: c in chunks ==> |c| > 0
    }

    ghost function Unread(): seq<Byte>
      reads this
    {
      Concat(chunks)
    }

    /** Read into the buffer from an index on; 0 when the stream has ended. */
    method Read(buf: array<Byte>, from: nat) returns (n: nat)
      requires Valid() && from < buf.Length
      modifies this, buf
      ensures Valid() && from + n <= buf.Length
      ensures buf[..from] == old(buf[..from])
      ensures buf[from..from + n] + Unread() == old(Unread())
      ensures n == 0 <==> old(Unread()) == []
    {
      if chunks == [] {
        assert buf[from..from] == [];
        return 0;
      }
      var c := chunks[0];
      assert c in chunks && Concat(chunks) != [];
      n := if |c| <= buf.Length - from then |c| else buf.Length - from;
      for k := 0 to n
        invariant buf[..from] == old(buf[..from]) && buf[from..from + k] == c[..k]
        invariant chunks == old(chunks)
      {
        buf[from + k] := c[k];
      }
      chunks := Taken(chunks, n);
    }

    /** Fill the buffer, or fail when the stream ends first. */
    method ReadFull(buf: array<Byte>) returns (ok: bool)
      requires Valid()
      modifies this, buf
      ensures Valid() && (ok <==> |old(Unread())| >= buf.Length)
      ensures ok ==> buf[..] + Unread() == old(Unread())
    {
      var got := 0;
      while got < buf.Length
        invariant Valid() && got <= buf.Length
        invariant buf[..got] + Unread() == old(Unread())
        decreases buf.Length - got
      {
        ghost var before, unread := buf[..got], Unread();
        var n := Read(buf, got);
        if n == 0 {
          assert unread == [] && before + unread == before;
          return false;
        }
        assert buf[..got + n] == before + buf[got..got + n];
        got := got + n;
      }
      assert buf[..got] == buf[..];
      ok := true;
    }
  }

  // ---------- Reading a header ----------

  /** An outcome with the bytes still unread put after those already read. */
  function Onward(o: Outcome, unread: seq<Byte>): Outcome {
    match o
    case Header(a, rest) => Header(a, rest + unread)
    case Unrecognized(rest) => Unrecognized(rest + unread)
    case Failed(e) => Failed(e)
  }

  /** A CRLF seen in the bytes read so far is the first one of the stream. */
  lemma {:induction false} CrlfSeenIsFirst(line: seq<Byte>, s: seq<Byte>)
    requires line <= s && FirstCrlf(line) < |line|
    ensures FirstCrlf(s) == FirstCrlf(line)
    decreases |line|
  {
    if !CrlfAt(line, 0) {
      assert line[1..] <= s[1..];
      CrlfSeenIsFirst(line[1..], s[1..]);
    }
  }

  /** Once a CRLF is among the bytes read, the rest of the stream does not matter. */
  lemma LineComplete(text: Text, line: seq<Byte>, unread: seq<Byte>)
    requires |line| <= MAX_REMAINING && FirstCrlf(line) < |line|
    ensures ParseV1(text, line + unread) == ParseLine(text, line[..FirstCrlf(line)], line[FirstCrlf(line) + 2..] + unread)
  {
    hide ParseLine, FirstCrlf;
    var s, i := line + unread, FirstCrlf(line);
    assert line <= Window(s);
    CrlfSeenIsFirst(line, Window(s));
    assert s[..i] == line[..i] && s[i + 2..] == line[i + 2..] + unread;
  }

  /** Without a CRLF, the line is too long or the stream too short. */
  lemma LineMissing(text: Text, line: seq<Byte>, unread: seq<Byte>)
    requires |line| <= MAX_REMAINING && FirstCrlf(line) == |line| && (|line| == MAX_REMAINING || unread == [])
    ensures ParseV1(text, line + unread) == Failed(if |line| < MAX_REMAINING then ReadFailed else LineTooLong)
  {
    assert Window(line + unread) == line;
  }

  method FindCrlf(line: seq<Byte>) returns (i: nat)
    ensures i == FirstCrlf(line)
  {
    i := 0;
    while i + 1 < |line| && !(line[i] == CR && line[i + 1] == LF)
      invariant i <= |line| && forall j: nat :: j < i ==> !CrlfAt(line, j)
    {
      i := i + 1;
    }
    if i + 1 >= |line| { i := |line|; } else { assert CrlfAt(line, i); }
    FirstCrlfIsLeast(line, i);
  }

  /** The line is read in whatever pieces arrive; bytes read past it are returned. */
  method ReadV1Header(text: Text, conn: Conn) returns (r: Outcome)
    requires conn.Valid()
    modifies conn
    ensures conn.Valid()
    ensures Onward(r, conn.Unread()) == ParseV1(text, old(conn.Unread()))
  {
    hide ParseLine, ParseV1, FirstCrlf, Concat, Window, CrlfAt;
    ghost var s := conn.Unread();
    FirstCrlfIsLeast([], 0);
    var buf := new Byte[MAX_REMAINING](_ => 0);
    var len := 0;
    while len < MAX_REMAINING
      invariant conn.Valid() && len <= MAX_REMAINING && buf[..len] + conn.Unread() == s
      invariant FirstCrlf(buf[..len]) == len
      decreases MAX_REMAINING - len
    {
      ghost var before, unread := buf[..len], conn.Unread();
      var n := conn.Read(buf, len);
      if n == 0 {
        LineMissing(text, before, unread);
        return Failed(ReadFailed);
      }
      assert buf[..len + n] == before + buf[len..len + n];
      len := len + n;
      var line := buf[..len];
      assert line + conn.Unread() == s;
      var i := FindCrlf(line);
      if i < |line| {
        r := ReadLine(text, line[..i], line[i + 2..]);
        LineMovesOn(text, line, conn.Unread());
        return;
      }
    }
    LineMissing(text, buf[..len], conn.Unread());
    r := Failed(LineTooLong);
  }

  lemma LineMovesOn(text: Text, line: seq<Byte>, unread: seq<Byte>)
    requires |line| <= MAX_REMAINING && FirstCrlf(line) < |line|
    ensures var i := FirstCrlf(line);
            Onward(ParseLine(text, line[..i], line[i + 2..]), unread) == ParseV1(text, line + unread)
  {
    hide FirstCrlf, ParseV1;
    LineComplete(text, line, unread);
  }

  method ReadLine(text: Text, line: seq<Byte>, remaining: seq<Byte>) returns (r: Outcome)
    ensures r == ParseLine(text, line, remaining)
  {
    hide ValueOf;
    var parts := text.fields(line);
    if |parts| < 1 { return Failed(BadFormat); }
    if parts[0] == "UNKNOWN" { return Header(None, remaining); }
    if |parts| != 5 { return Failed(BadFormat); }
    var protocol := parts[0];
    var srcIP, dstIP := text.parseIP(parts[1]), text.parseIP(parts[2]);
    if srcIP.None? || dstIP.None? { return Failed(BadAddress); }
    var srcPort := Port(parts[3]);
    if srcPort.None? { return Failed(BadPort); }
    var dstPort := Port(parts[4]);
    if dstPort.None? { return Failed(BadPort); }
    var srcIsV6, dstIsV6 := ':' in parts[1], ':' in parts[2];
    if protocol == "TCP4" && (srcIsV6 || dstIsV6) { return Failed(WrongFamily); }
    if protocol == "TCP6" && (!srcIsV6 || !dstIsV6) { return Failed(WrongFamily); }
    if protocol != "TCP4" && protocol != "TCP6" { return Failed(BadProtocol); }
    r := Header(Some(Address(srcIP.value, srcPort.value, dstIP.value, dstPort.value)), remaining);
  }

  method Discard(conn: Conn, addrLen: nat) returns (r: Outcome)
    requires conn.Valid()
    modifies conn
    ensures conn.Valid() && Onward(r, conn.Unread()) == Skip(addrLen, old(conn.Unread()))
  {
    ghost var s := conn.Unread();
    var buf := new Byte[addrLen](_ => 0);
    var ok := conn.ReadFull(buf);
    if !ok { return Failed(ReadFailed); }
    assert s[addrLen..] == [] + conn.Unread();
    r := Header(None, []);
  }

  method ParseAddr(conn: Conn, ipLen: nat, addrLen: nat) returns (r: Outcome)
    requires conn.Valid()
    modifies conn
    ensures conn.Valid() && Onward(r, conn.Unread()) == Addressed(ipLen, addrLen, old(conn.Unread()))
  {
    if addrLen < 2 * ipLen + 4 { return Failed(TooShort); }
    ghost var s := conn.Unread();
    var buf := new Byte[addrLen](_ => 0);
    var ok := conn.ReadFull(buf);
    if !ok { return Failed(ReadFailed); }
    assert s[..addrLen] == buf[..] && s[addrLen..] == [] + conn.Unread();
    r := Header(Some(AddressOf(ipLen, buf[..])), []);
  }

  method ParseV2Header(conn: Conn, verCmd: Byte, famProto: Byte, addrLen: nat) returns (r: Outcome)
    requires conn.Valid()
    modifies conn
    ensures conn.Valid() && Onward(r, conn.Unread()) == ParseV2(verCmd, famProto, addrLen, old(conn.Unread()))
  {
    if verCmd / 16 != 2 { return Failed(BadVersion); }
    var command, family := verCmd % 16, famProto / 16;
    if command == 0 { r := Discard(conn, addrLen); return; }
    if command != 1 { return Failed(UnknownCommand); }
    if famProto % 16 != 1 { return Failed(Unsupported); }
    if family == 1 {
      r := ParseAddr(conn, 4, addrLen);
    } else if family == 2 {
      r := ParseAddr(conn, 16, addrLen);
    } else if family == 0 {
      r := Discard(conn, addrLen);
    } else {
      r := Failed(Unsupported);
    }
  }

  /** Read a fixed number of bytes. */
  method Take(conn: Conn, n: nat) returns (r: Option<seq<Byte>>)
    requires conn.Valid()
    modifies conn
    ensures conn.Valid() && (r.None? <==> |old(conn.Unread())| < n)
    ensures r.Some? ==> r.value == old(conn.Unread())[..n] && conn.Unread() == old(conn.Unread())[n..]
  {
    var buf := new Byte[n](_ => 0);
    var ok := conn.ReadFull(buf);
    r := if ok then Some(buf[..]) else None;
  }

  /** Whatever the chunks, the outcome is that of the stream, and the bytes
      returned followed by those unread are the stream after the header. */
  method ReadHeader(text: Text, conn: Conn) returns (r: Outcome)
    requires conn.Valid()
    modifies conn
    ensures conn.Valid() && Onward(r, conn.Unread()) == Parse(text, old(conn.Unread()))
  {
    hide ParseV1, ParseV2, Concat;
    ghost var s := conn.Unread();
    var first := Take(conn, 6);
    if first.None? { return Failed(ReadFailed); }
    if first.value == PREFIX { r := ReadV1Header(text, conn); return; }
    if first.value != SIGNATURE[..6] {
      assert s == first.value + conn.Unread();
      return Unrecognized(first.value);
    }
    var second := Take(conn, 6);
    if second.None? { return Failed(ReadFailed); }
    assert s[..12] == first.value + second.value;
    if first.value + second.value != SIGNATURE { return Failed(BadSignature); }
    var header := Take(conn, 4);
    if header.None? { return Failed(ReadFailed); }
    assert header.value == s[12..16] && conn.Unread() == s[16..];
    r := ParseV2Header(conn, header.value[0], header.value[1], Word(header.value[2], header.value[3]));
  }

  // ---------- What the outcome means ----------

  /** The length of a header: through the CRLF, or the fixed part and the length
      it announces. */
  function HeaderLength(s: seq<Byte>): nat
    requires |s| >= 6
  {
    if s[..6] == PREFIX || |s| < 16 then 6 + FirstCrlf(s[6..]) + 2 else 16 + Word(s[14], s[15])
  }

  lemma FirstInWindow(s: seq<Byte>)
    requires FirstCrlf(Window(s)) < |Window(s)|
    ensures FirstCrlf(s) == FirstCrlf(Window(s)) <= MAX_REMAINING - 2
  {
    hide FirstCrlf;
    CrlfSeenIsFirst(Window(s), s);
  }

  lemma V1HasLine(text: Text, s: seq<Byte>)
    requires ParseV1(text, s).Header?
    ensures FirstCrlf(s) + 2 <= |s| && FirstCrlf(s) + 2 <= MAX_REMAINING
  {
    hide FirstCrlf, ParseLine;
    FirstInWindow(s);
  }

  /** A line of up to 107 bytes decides the outcome, whatever follows it. */
  lemma V1HeaderDecides(text: Text, s: seq<Byte>, t: seq<Byte>)
    requires ParseV1(text, s).Header?
    ensures FirstCrlf(s) + 2 <= |s| && FirstCrlf(s) + 2 <= MAX_REMAINING
    ensures ParseV1(text, s).rest == s[FirstCrlf(s) + 2..]
    ensures ParseV1(text, s[..FirstCrlf(s) + 2] + t) == ParseV1(text, s).(rest := t)
  {
    hide FirstCrlf, ParseLine, ParseV1;
    V1HasLine(text, s);
    CrlfCutsThere(s);
    var line, rest := s[..FirstCrlf(s) + 2], s[FirstCrlf(s) + 2..];
    assert line + rest == s;
    V1LineDecides(text, line, rest, t);
  }

  lemma V1LineDecides(text: Text, line: seq<Byte>, rest: seq<Byte>, t: seq<Byte>)
    requires |line| <= MAX_REMAINING && FirstCrlf(line) + 2 == |line| && ParseV1(text, line + rest).Header?
    ensures ParseV1(text, line + rest).rest == rest
    ensures ParseV1(text, line + t) == ParseV1(text, line + rest).(rest := t)
  {
    hide FirstCrlf, ParseLine, ParseV1;
    WholeLine(text, line, t);
    WholeLine(text, line, rest);
    LineRest(text, line[..|line| - 2], rest, t);
  }

  lemma WholeLine(text: Text, line: seq<Byte>, t: seq<Byte>)
    requires |line| <= MAX_REMAINING && FirstCrlf(line) + 2 == |line|
    ensures ParseV1(text, line + t) == ParseLine(text, line[..|line| - 2], t)
  {
    hide FirstCrlf, ParseLine, ParseV1;
    LineComplete(text, line, t);
    assert line[|line|..] + t == t;
  }

  lemma {:induction false} CrlfCutsThere(s: seq<Byte>)
    requires FirstCrlf(s) < |s|
    ensures FirstCrlf(s[..FirstCrlf(s) + 2]) == FirstCrlf(s)
    decreases |s|
  {
    if !CrlfAt(s, 0) {
      CrlfCutsThere(s[1..]);
      assert s[..FirstCrlf(s) + 2][1..] == s[1..][..FirstCrlf(s[1..]) + 2];
    }
  }

  lemma LineRest(text: Text, line: seq<Byte>, rest: seq<Byte>, t: seq<Byte>)
    ensures ParseLine(text, line, rest).Header? ==>
              ParseLine(text, line, rest).rest == rest && ParseLine(text, line, t) == ParseLine(text, line, rest).(rest := t)
  {
  }

  lemma V2HeaderDecides(verCmd: Byte, famProto: Byte, addrLen: nat, s: seq<Byte>, t: seq<Byte>)
    requires ParseV2(verCmd, famProto, addrLen, s).Header?
    ensures |s| >= addrLen && ParseV2(verCmd, famProto, addrLen, s).rest == s[addrLen..]
    ensures ParseV2(verCmd, famProto, addrLen, s[..addrLen] + t) == ParseV2(verCmd, famProto, addrLen, s).(rest := t)
  {
    var s' := s[..addrLen] + t;
    assert s'[..addrLen] == s[..addrLen] && s'[addrLen..] == t;
  }

  /** A header is a prefix of the stream that stands by itself: what follows it
      is handed on unchanged and does not influence the address. */
  lemma HeaderDecides(text: Text, s: seq<Byte>, t: seq<Byte>)
    requires Parse(text, s).Header?
    ensures |s| >= 6 && HeaderLength(s) <= |s| && Parse(text, s).rest == s[HeaderLength(s)..]
    ensures s[..6] == PREFIX ==> HeaderLength(s) <= 107
    ensures Parse(text, s[..HeaderLength(s)] + t) == Parse(text, s).(rest := t)
  {
    hide ParseV1, ParseV2, FirstCrlf;
    var k := HeaderLength(s);
    if s[..6] == PREFIX {
      V1HeaderDecides(text, s[6..], t);
      var s' := s[..k] + t;
      assert s'[..6] == PREFIX && s'[6..] == s[6..][..k - 6] + t;
      assert s[6..][k - 6..] == s[k..];
    } else {
      V2HeaderDecides(s[12], s[13], Word(s[14], s[15]), s[16..], t);
      var s' := s[..k] + t;
      assert s'[..6] == s[..6] && s'[..12] == s[..12];
      assert s'[16..] == s[16..][..k - 16] + t;
      assert s[16..][k - 16..] == s[k..];
    }
  }

  function BigEndian(n: nat): seq<Byte>
    requires n < 65536
  {
    [n / 256, n % 256]
  }

  predicate SameFamily(a: Address) {
    && |a.srcIP| == |a.dstIP| && (|a.srcIP| == 4 || |a.srcIP| == 16)
    && a.srcPort < 65536 && a.dstPort < 65536
  }

  function AddressData(a: Address, extra: seq<Byte>): (data: seq<Byte>)
    requires SameFamily(a)
    ensures |data| == 2 * |a.srcIP| + 4 + |extra|
  {
    a.srcIP + a.dstIP + BigEndian(a.srcPort) + BigEndian(a.dstPort) + extra
  }

  /** A version 2 header for two addresses of one family, with any extra data. */
  function RenderV2(a: Address, extra: seq<Byte>): seq<Byte>
    requires SameFamily(a) && 2 * |a.srcIP| + 4 + |extra| < 65536
  {
    var data := AddressData(a, extra);
    SIGNATURE + [0x21, if |a.srcIP| == 4 then 0x11 else 0x21] + BigEndian(|data|) + data
  }

  lemma AddressOfData(a: Address, extra: seq<Byte>)
    requires SameFamily(a)
    ensures AddressOf(|a.srcIP|, AddressData(a, extra)) == a
  {
    var n, data := |a.srcIP|, AddressData(a, extra);
    assert data[..n] == a.srcIP && data[n..2 * n] == a.dstIP;
    assert data[2 * n..2 * n + 4] == BigEndian(a.srcPort) + BigEndian(a.dstPort);
    assert data[2 * n] == data[2 * n..2 * n + 4][0] && data[2 * n + 1] == data[2 * n..2 * n + 4][1];
    assert data[2 * n + 2] == data[2 * n..2 * n + 4][2] && data[2 * n + 3] == data[2 * n..2 * n + 4][3];
  }

  lemma FixedPart(text: Text, verCmd: Byte, famProto: Byte, n: nat, s: seq<Byte>)
    requires n < 65536
    ensures Parse(text, SIGNATURE + [verCmd, famProto] + BigEndian(n) + s) == ParseV2(verCmd, famProto, n, s)
  {
    hide ParseV2, ParseV1;
    var t := SIGNATURE + [verCmd, famProto] + BigEndian(n) + s;
    assert t[..12] == SIGNATURE && t[..6] == SIGNATURE[..6] && t[16..] == s;
    assert t[..6][0] != PREFIX[0];
    assert t[12..16] == [verCmd, famProto] + BigEndian(n);
    assert t[12] == t[12..16][0] && t[13] == t[12..16][1] && t[14] == t[12..16][2] && t[15] == t[12..16][3];
    assert Word(t[14], t[15]) == n;
  }

  /** A rendered header is read back, and what follows it is left. */
  lemma V2RoundTrip(text: Text, a: Address, extra: seq<Byte>, payload: seq<Byte>)
    requires SameFamily(a) && 2 * |a.srcIP| + 4 + |extra| < 65536
    ensures Parse(text, RenderV2(a, extra) + payload) == Header(Some(a), payload)
  {
    hide Parse, AddressOf;
    var data := AddressData(a, extra);
    var famProto: Byte := if |a.srcIP| == 4 then 0x11 else 0x21;
    var t := data + payload;
    FixedPart(text, 0x21, famProto, |data|, t);
    assert RenderV2(a, extra) + payload == SIGNATURE + [0x21, famProto] + BigEndian(|data|) + t;
    AddressOfData(a, extra);
    assert ParseV2(0x21, famProto, |data|, t) == Addressed(|a.srcIP|, |data|, t);
    assert t[..|data|] == data && t[|data|..] == payload;
    assert Addressed(|a.srcIP|, |data|, t) == Header(Some(a), payload);
  }

  /** A version 1 line without CRLF that fits is read up to its CRLF. */
  lemma V1RoundTrip(text: Text, line: seq<Byte>, payload: seq<Byte>)
    requires |line| + 2 <= MAX_REMAINING && forall j: nat :: j < |line| ==> !CrlfAt(line, j)
    ensures Parse(text, PREFIX + line + [CR, LF] + payload) == ParseLine(text, line, payload)
  {
    hide FirstCrlf, ParseLine, ParseV1;
    var s := PREFIX + line + [CR, LF] + payload;
    var whole := line + [CR, LF];
    assert s[..6] == PREFIX && s[6..] == whole + payload;
    forall j: nat | j < |line| ensures !CrlfAt(whole, j) {
      assert !CrlfAt(line, j);
    }
    FirstCrlfIsLeast(whole, |line|);
    LineComplete(text, whole, payload);
    assert whole[..|line|] == line && whole[|line| + 2..] + payload == payload;
  }

  /** A line of two addresses of its family and two numerals denotes exactly these
      addresses and ports, source first; larger numbers are no ports. */
  lemma V1AddressIsRead(text: Text, line: seq<Byte>, v6: bool, src: string, dst: string, srcPort: nat, dstPort: nat, rest: seq<Byte>)
    requires text.fields(line) == [if v6 then "TCP6" else "TCP4", src, dst, NatNumeral(srcPort), NatNumeral(dstPort)]
    requires text.parseIP(src).Some? && text.parseIP(dst).Some?
    requires (':' in src <==> v6) && (':' in dst <==> v6)
    ensures ParseLine(text, line, rest) ==
              if srcPort <= 65535 && dstPort <= 65535
              then Header(Some(Address(text.parseIP(src).value, srcPort, text.parseIP(dst).value, dstPort)), rest)
              else Failed(BadPort)
  {
    hide NatNumeral, ValueOf;
    NumeralReads(srcPort);
    NumeralReads(dstPort);
    var family := if v6 then "TCP6" else "TCP4";
    assert family[0] == 'T' && family != "UNKNOWN";
    assert "TCP4"[3] != "TCP6"[3];
  }

  // ---------- Which streams have a header, and which of them an address ----------

  /** The stream starts with this text. */
  predicate StartsWith(s: seq<Byte>, text: string) {
    |text| <= |s| && forall i :: 0 <= i < |text| ==> s[i] == text[i] as int
  }

  const PROXY_WORD := "PROXY "
  const QUIT_WORD := "\r\n\r\n\0\r\nQUIT\n"

  lemma PrefixIsWord(s: seq<Byte>)
    ensures StartsWith(s, PROXY_WORD) <==> 6 <= |s| && s[..6] == PREFIX
  {
    if 6 <= |s| {
      var t := s[..6];
      assert t == PREFIX <==> t[0] == 0x50 && t[1] == 0x52 && t[2] == 0x4F && t[3] == 0x58 && t[4] == 0x59 && t[5] == 0x20;
    }
  }

  lemma SignatureIsWord(s: seq<Byte>)
    ensures StartsWith(s, QUIT_WORD) <==> 12 <= |s| && s[..12] == SIGNATURE
    ensures StartsWith(s, QUIT_WORD) ==> s[..6] == SIGNATURE[..6] && s[..6] != PREFIX
  {
    if 12 <= |s| {
      var t := s[..12];
      assert t == SIGNATURE <==>
        && t[0] == 0x0D && t[1] == 0x0A && t[2] == 0x0D && t[3] == 0x0A && t[4] == 0 && t[5] == 0x0D
        && t[6] == 0x0A && t[7] == 0x51 && t[8] == 0x55 && t[9] == 0x49 && t[10] == 0x54 && t[11] == 0x0A;
      assert t == SIGNATURE ==> s[..6] == t[..6];
      assert t == SIGNATURE ==> s[..6][0] == 0x0D;
    }
  }

  /** A version 1 line of a stream, which is complete within the allowed length. */
  ghost predicate HasLine(s: seq<Byte>, i: nat) {
    && StartsWith(s, PROXY_WORD) && i + 2 <= 101 && 6 + i + 2 <= |s| && CrlfAt(s[6..], i)
    && forall j: nat :: j < i ==> !CrlfAt(s[6..], j)
  }

  /** A version 2 header of the LOCAL command, or of the unspecified family over a stream
      protocol, and no other has no address. One for IPv4 or IPv6 over a stream protocol
      has one, if the announced bytes can hold it. */
  lemma V2Outcomes(text: Text, s: seq<Byte>)
    requires StartsWith(s, QUIT_WORD) && 16 <= |s|
    ensures var n := 256 * (s[14] as int) + (s[15] as int);
            var r := Parse(text, s);
            && (r.Header? && r.address.None? <==>
                  16 + n <= |s| && (s[12] == 0x20 || (s[12] == 0x21 && s[13] == 0x01)))
            && (r.Header? && r.address.Some? <==>
                  16 + n <= |s| && s[12] == 0x21 && ((s[13] == 0x11 && 12 <= n) || (s[13] == 0x21 && 36 <= n)))
            && (r.Header? ==> r.rest == s[16 + n..])
  {
    SignatureIsWord(s);
    var n := 256 * (s[14] as int) + (s[15] as int);
    assert s[16..][..] == s[16..];
    NibblesOf(s[12]);
    NibblesOf(s[13]);
    hide AddressOf;
    if 16 + n <= |s| { assert s[16..][n..] == s[16 + n..]; }
  }

  lemma NibblesOf(b: Byte)
    ensures b == 16 * (b / 16) + b % 16
  {
  }

  /** A version 1 line that says UNKNOWN has no address, whatever else it says. */
  lemma UnknownHasNoAddress(text: Text, s: seq<Byte>, i: nat)
    requires HasLine(s, i)
    ensures var r, fields := Parse(text, s), text.fields(s[6..][..i]);
            && (r.Header? && r.address.None? <==> fields != [] && fields[0] == "UNKNOWN")
            && (r.Header? ==> r.rest == s[6 + i + 2..])
  {
    PrefixIsWord(s);
    var t := s[6..];
    var w := Window(t);
    assert i + 2 <= |w| && w[..i + 2] == t[..i + 2];
    assert w[i] == w[..i + 2][i] && w[i + 1] == w[..i + 2][i + 1] && CrlfAt(w, i);
    forall j: nat | j < i ensures !CrlfAt(w, j) {
      assert w[j] == w[..i + 2][j] && w[j + 1] == w[..i + 2][j + 1] && !CrlfAt(t, j);
    }
    FirstCrlfIsLeast(w, i);
    assert t[i + 2..] == s[6 + i + 2..];
  }

  /** A stream of six bytes or more that starts neither way is passed on whole. */
  lemma OtherStreamsPass(text: Text, s: seq<Byte>)
    ensures Parse(text, s).Unrecognized? <==> 6 <= |s| && !StartsWith(s, PROXY_WORD) && !StartsWith(s, QUIT_WORD[..6])
    ensures Parse(text, s).Unrecognized? ==> Parse(text, s).rest == s
  {
    PrefixIsWord(s);
    SignatureStart(s);
    hide ParseV1, ParseV2;
    OnlyParseRefuses(text, s);
  }

  lemma SignatureStart(s: seq<Byte>)
    ensures StartsWith(s, QUIT_WORD[..6]) <==> 6 <= |s| && s[..6] == SIGNATURE[..6]
  {
    assert QUIT_WORD[..6] == "\r\n\r\n\0\r" && SIGNATURE[..6] == [0x0D, 0x0A, 0x0D, 0x0A, 0x00, 0x0D];
    if 6 <= |s| {
      var t := s[..6];
      assert t == SIGNATURE[..6] <==> t[0] == 0x0D && t[1] == 0x0A && t[2] == 0x0D && t[3] == 0x0A && t[4] == 0 && t[5] == 0x0D;
    }
  }

  lemma OnlyParseRefuses(text: Text, s: seq<Byte>)
    ensures !ParseV1(text, s).Unrecognized?
    ensures forall v: Byte, f: Byte, n: nat :: !ParseV2(v, f, n, s).Unrecognized?
    ensures 6 <= |s| ==> !ParseV1(text, s[6..]).Unrecognized?
    ensures 16 <= |s| ==> !ParseV2(s[12], s[13], Word(s[14], s[15]), s[16..]).Unrecognized?
  {
  }

  /** A version 2 header is refused for its version, its command, its protocol or family,
      or its length, in this order; and when the stream ends before it does. */
  lemma V2Refusals(text: Text, s: seq<Byte>)
    requires StartsWith(s, QUIT_WORD) && 16 <= |s|
    ensures var n := 256 * (s[14] as int) + (s[15] as int);
            var r := Parse(text, s);
            var short := (s[13] == 0x11 && n < 12) || (s[13] == 0x21 && n < 36);
            && (r == Failed(BadVersion) <==> !(0x20 <= s[12] <= 0x2F))
            && (r == Failed(UnknownCommand) <==> 0x22 <= s[12] <= 0x2F)
            && (r == Failed(Unsupported) <==> s[12] == 0x21 && s[13] != 0x01 && s[13] != 0x11 && s[13] != 0x21)
            && (r == Failed(TooShort) <==> s[12] == 0x21 && short)
            && (r == Failed(ReadFailed) <==>
                  |s| < 16 + n && (s[12] == 0x20 || (s[12] == 0x21 && (s[13] == 0x01 || s[13] == 0x11 || s[13] == 0x21) && !short)))
  {
    SignatureIsWord(s);
    NibblesOf(s[12]);
    NibblesOf(s[13]);
    hide AddressOf;
  }

  /** Without the end of its line, a version 1 header is too long from 107 bytes on, and
      still to be read before. */
  lemma V1LineMissing(text: Text, s: seq<Byte>)
    requires StartsWith(s, PROXY_WORD) && forall i: nat :: i + 2 <= 101 && 6 + i + 2 <= |s| ==> !CrlfAt(s[6..], i)
    ensures Parse(text, s) == Failed(if |s| < 107 then ReadFailed else LineTooLong)
  {
    PrefixIsWord(s);
    var t := s[6..];
    var w := Window(t);
    forall j: nat | j < |w| ensures !CrlfAt(w, j) {
      if j + 1 < |w| { assert w[j] == t[j] && w[j + 1] == t[j + 1] && !CrlfAt(t, j); }
    }
    FirstCrlfIsLeast(w, |w|);
  }
}
