/** The bytes of a tunnel: the preamble, then length-prefixed datagrams, over a stream that may be cut. */
module TunnelCodec {
  import opened Util

  type byte = n: int | 0 <= n < 256

  const MAJOR_VERSION: byte := 1
  const MINOR_VERSION: byte := 0
  const MAX_DATAGRAM_SIZE: nat := 65535

  datatype Mode = Stream | Datagram

  /** A port name is a string, held as its UTF-8 bytes. */
  datatype Request = Request(mode: Mode, portName: seq<byte>)

  datatype Failure =
    | UnexpectedEof
    | UnsupportedVersion(major: byte, minor: byte)
    | InvalidMode(mode: byte)
    | PortNameTooLong(length: nat)
    | DatagramTooLarge(length: nat)
    | Rejected(code: byte)

  datatype Outcome<+T> = Ok(value: T) | Err(why: Failure)

  // ---------- UTF-8 (Table 3-7 of the Unicode Standard) ----------

  predicate Tail(b: byte) {
    0x80 <= b <= 0xBF
  }

  /** The length of the well-formed sequence at the front, or 0. */
  function Utf8Length(s: seq<byte>): (n: nat)
    ensures n <= |s|
  {
    if |s| >= 1 && s[0] <= 0x7F then 1
    else if |s| >= 2 && 0xC2 <= s[0] <= 0xDF && Tail(s[1]) then 2
    else if |s| >= 3 && 0xE0 <= s[0] <= 0xEF && Tail(s[1]) && Tail(s[2])
            && (s[0] == 0xE0 ==> s[1] >= 0xA0) && (s[0] == 0xED ==> s[1] <= 0x9F) then 3
    else if |s| >= 4 && 0xF0 <= s[0] <= 0xF4 && Tail(s[1]) && Tail(s[2]) && Tail(s[3])
            && (s[0] == 0xF0 ==> s[1] >= 0x90) && (s[0] == 0xF4 ==> s[1] <= 0x8F) then 4
    else 0
  }

  predicate ValidUtf8(s: seq<byte>)
    decreases |s|
  {
    s == [] || (Utf8Length(s) > 0 && ValidUtf8(s[Utf8Length(s)..]))
  }

  /** The UTF-8 form of a character: up to four bytes, six bits in each but the first. */
  function Utf8(c: char): (s: seq<byte>)
    ensures 1 <= |s| <= 4
  {
    var n := c as int;
    if n < 0x80 then [n]
    else if n < 0x800 then [0xC0 + n / 64, 0x80 + n % 64]
    else if n < 0x1_0000 then [0xE0 + n / 4096, 0x80 + n / 64 % 64, 0x80 + n % 64]
    else [0xF0 + n / 26_2144, 0x80 + n / 4096 % 64, 0x80 + n / 64 % 64, 0x80 + n % 64]
  }

  function Utf8Text(text: string): seq<byte> {
    if text == [] then [] else Utf8(text[0]) + Utf8Text(text[1..])
  }

  lemma CharIsValid(c: char, rest: seq<byte>)
    ensures Utf8Length(Utf8(c) + rest) == |Utf8(c)|
  {
  }

  /** The text of a string is valid. */
  lemma {:induction false} TextIsValid(text: string)
    ensures ValidUtf8(Utf8Text(text))
  {
    if text != [] {
      var rest := Utf8Text(text[1..]);
      TextIsValid(text[1..]);
      CharIsValid(text[0], rest);
      assert (Utf8(text[0]) + rest)[|Utf8(text[0])|..] == rest;
    }
  }

  /** Six more bits below `high`. */
  lemma SixBits(high: nat, b: byte) returns (n: nat)
    requires 0x80 <= b <= 0xBF
    ensures n == high * 64 + (b as int - 0x80) && n / 64 == high && 0x80 + n % 64 == b
  {
    n := high * 64 + (b as int - 0x80);
  }

  lemma Sixes(n: nat)
    ensures n / 4096 == n / 64 / 64 && n / 26_2144 == n / 64 / 64 / 64
  {
  }

  lemma FirstChar(s: seq<byte>) returns (c: char)
    requires Utf8Length(s) > 0
    ensures Utf8(c) == s[..Utf8Length(s)]
  {
    var k := Utf8Length(s);
    if k == 1 {
      c := s[0] as char;
    } else if k == 2 {
      c := TwoBytes(s[0], s[1]);
    } else if k == 3 {
      c := ThreeBytes(s[0], s[1], s[2]);
    } else {
      c := FourBytes(s[0], s[1], s[2], s[3]);
    }
  }

  lemma TwoBytes(a: byte, b: byte) returns (c: char)
    requires 0xC2 <= a <= 0xDF && Tail(b)
    ensures Utf8(c) == [a, b]
  {
    var n := SixBits(a as int - 0xC0, b);
    c := n as char;
  }

  lemma ThreeBytes(a: byte, b: byte, d: byte) returns (c: char)
    requires 0xE0 <= a <= 0xEF && Tail(b) && Tail(d) && (a == 0xE0 ==> b >= 0xA0) && (a == 0xED ==> b <= 0x9F)
    ensures Utf8(c) == [a, b, d]
  {
    var m := SixBits(a as int - 0xE0, b);
    var n := SixBits(m, d);
    Sixes(n);
    c := n as char;
  }

  lemma FourBytes(a: byte, b: byte, d: byte, e: byte) returns (c: char)
    requires 0xF0 <= a <= 0xF4 && Tail(b) && Tail(d) && Tail(e) && (a == 0xF0 ==> b >= 0x90) && (a == 0xF4 ==> b <= 0x8F)
    ensures Utf8(c) == [a, b, d, e]
  {
    var l := SixBits(a as int - 0xF0, b);
    var m := SixBits(l, d);
    var n := SixBits(m, e);
    Sixes(n);
    c := n as char;
  }

  /** Valid bytes are the text of a string. */
  lemma {:induction false} ValidIsText(s: seq<byte>) returns (text: string)
    requires ValidUtf8(s)
    ensures Utf8Text(text) == s
    decreases |s|
  {
    if s == [] {
      text := [];
    } else {
      var c := FirstChar(s);
      var rest := ValidIsText(s[Utf8Length(s)..]);
      text := [c] + rest;
      assert text[1..] == rest;
    }
  }

  /** The length in bytes that the stores check is that of this text. */
  lemma {:induction false} LengthInBytes(text: string)
    ensures |Utf8Text(text)| == ByteLength(text)
  {
    if text != [] {
      LengthInBytes(text[1..]);
    }
  }

  // ---------- The encoding ----------

  function ModeByte(m: Mode): byte {
    match m
    case Stream => 0
    case Datagram => 1
  }

  function EncodeRequest(r: Request): seq<byte>
    requires |r.portName| <= 255
  {
    [MAJOR_VERSION, MINOR_VERSION, ModeByte(r.mode), |r.portName|] + r.portName
  }

  /** `u16::from_be_bytes`. */
  function LengthOf(high: byte, low: byte): nat {
    (high as nat) * 256 + (low as nat)
  }

  function EncodeDatagram(d: seq<byte>): seq<byte>
    requires |d| <= MAX_DATAGRAM_SIZE
  {
    [|d| / 256, |d| % 256] + d
  }

  /** No datagram is too large for its length prefix. */
  predicate Sendable(ds: seq<seq<byte>>) {
    forall i :: 0 <= i < |ds| ==> |ds[i]| <= MAX_DATAGRAM_SIZE
  }

  function Frames(ds: seq<seq<byte>>): seq<byte>
    requires Sendable(ds)
  {
    if ds == [] then [] else EncodeDatagram(ds[0]) + Frames(ds[1..])
  }

  // ---------- The decoding ----------

  /** `ConnectionMode::try_from`. */
  function ModeOf(b: byte): Outcome<Mode> {
    if b == 0 then Ok(Stream) else if b == 1 then Ok(Datagram) else Err(InvalidMode(b))
  }

  /** The request and the bytes after it; the minor version is not looked at. */
  function DecodeRequest(s: seq<byte>): Outcome<(Request, seq<byte>)> {
    if |s| < 4 then Err(UnexpectedEof)
    else if s[0] != MAJOR_VERSION then Err(UnsupportedVersion(s[0], s[1]))
    else
      match ModeOf(s[2])
      case Err(why) => Err(why)
      case Ok(mode) =>
        var n := s[3] as nat;
        if |s| < 4 + n then Err(UnexpectedEof)
        else if !ValidUtf8(s[4..4 + n]) then Err(InvalidMode(0))
        else Ok((Request(mode, s[4..4 + n]), s[4 + n..]))
  }

  datatype Frame = Frame(data: seq<byte>, rest: seq<byte>) | End | Broken

  /** A stream that ends inside the length prefix reads as an end, one that ends inside the data as an error. */
  function DecodeDatagram(s: seq<byte>): (f: Frame)
    ensures f.Frame? ==> |f.rest| < |s|
  {
    if |s| < 2 then End
    else
      var n := LengthOf(s[0], s[1]);
      if |s| < 2 + n then Broken else Frame(s[2..2 + n], s[2 + n..])
  }

  /** What a frame is: two length bytes, the high one first, that many bytes of data, and the rest. */
  lemma FrameExactly(s: seq<byte>)
    ensures match DecodeDatagram(s)
            case End => |s| < 2
            case Broken => |s| >= 2 && |s| - 2 < s[0] as int * 256 + s[1] as int
            case Frame(data, rest) =>
              |s| >= 2 && s == s[..2] + data + rest && |data| == s[0] as int * 256 + s[1] as int
  {
  }

  /** All datagrams up to the end, and whether the stream ended cleanly. */
  function DecodeAll(s: seq<byte>): (seq<seq<byte>>, bool)
    decreases |s|
  {
    match DecodeDatagram(s)
    case End => ([], true)
    case Broken => ([], false)
    case Frame(data, rest) =>
      var (more, clean) := DecodeAll(rest);
      ([data] + more, clean)
  }

  // ---------- Round trips ----------

  lemma RequestRoundTrip(r: Request, rest: seq<byte>)
    requires |r.portName| <= 255 && ValidUtf8(r.portName)
    ensures DecodeRequest(EncodeRequest(r) + rest) == Ok((r, rest))
  {
    var s := EncodeRequest(r) + rest;
    assert s[4..4 + |r.portName|] == r.portName;
    assert s[4 + |r.portName|..] == rest;
  }

  lemma DatagramRoundTrip(d: seq<byte>, rest: seq<byte>)
    requires |d| <= MAX_DATAGRAM_SIZE
    ensures DecodeDatagram(EncodeDatagram(d) + rest) == Frame(d, rest)
  {
    var s := EncodeDatagram(d) + rest;
    assert LengthOf(s[0], s[1]) == |d|;
    assert s[2..2 + |d|] == d && s[2 + |d|..] == rest;
  }

  lemma {:induction false} FramesRoundTrip(ds: seq<seq<byte>>)
    requires Sendable(ds)
    ensures DecodeAll(Frames(ds)) == (ds, true)
  {
    if ds != [] {
      DatagramRoundTrip(ds[0], Frames(ds[1..]));
      FramesRoundTrip(ds[1..]);
      assert ds == [ds[0]] + ds[1..];
    }
  }

  /** The whole tunnel decodes to the request and exactly its datagrams. */
  lemma TunnelRoundTrip(r: Request, ds: seq<seq<byte>>)
    requires |r.portName| <= 255 && ValidUtf8(r.portName)
    requires Sendable(ds)
    ensures DecodeRequest(EncodeRequest(r) + Frames(ds)) == Ok((r, Frames(ds)))
    ensures DecodeAll(Frames(ds)) == (ds, true)
  {
    RequestRoundTrip(r, Frames(ds));
    FramesRoundTrip(ds);
  }

  // ---------- Cut streams ----------

  /** How many whole frames fit into the first `k` bytes. */
  function WholeFrames(ds: seq<seq<byte>>, k: nat): (n: nat)
    requires Sendable(ds)
    ensures n <= |ds|
  {
    if ds == [] || k < 2 + |ds[0]| then 0 else 1 + WholeFrames(ds[1..], k - 2 - |ds[0]|)
  }

  /** The bytes left after the whole frames. */
  function Remainder(ds: seq<seq<byte>>, k: nat): nat
    requires Sendable(ds)
    decreases |ds|
  {
    if ds == [] || k < 2 + |ds[0]| then k else Remainder(ds[1..], k - 2 - |ds[0]|)
  }

  /** A frame cut short reads as an end inside its length prefix, and as an error inside its data. */
  lemma CutFrame(d: seq<byte>, tail: seq<byte>, k: nat)
    requires |d| <= MAX_DATAGRAM_SIZE && k < 2 + |d|
    ensures DecodeDatagram((EncodeDatagram(d) + tail)[..k]) == if k < 2 then End else Broken
  {
    var s := (EncodeDatagram(d) + tail)[..k];
    if k >= 2 {
      assert s[0] == EncodeDatagram(d)[0] && s[1] == EncodeDatagram(d)[1];
      assert LengthOf(s[0], s[1]) == |d|;
    }
  }

  /** A whole frame at the front is decoded first. */
  lemma WholeFrameFirst(d: seq<byte>, tail: seq<byte>, left: nat)
    requires |d| <= MAX_DATAGRAM_SIZE && left <= |tail|
    ensures var (more, clean) := DecodeAll(tail[..left]);
            DecodeAll((EncodeDatagram(d) + tail)[..2 + |d| + left]) == ([d] + more, clean)
  {
    assert (EncodeDatagram(d) + tail)[..2 + |d| + left] == EncodeDatagram(d) + tail[..left];
    DatagramRoundTrip(d, tail[..left]);
  }

  lemma OneMoreWhole(ds: seq<seq<byte>>, n: nat)
    requires 1 <= n <= |ds|
    ensures ds[..n] == [ds[0]] + ds[1..][..n - 1]
  {
  }

  /** The bytes a whole first frame leaves of a cut at `k`. */
  lemma CutAfterFirst(ds: seq<seq<byte>>, k: nat)
    requires Sendable(ds) && ds != [] && 2 + |ds[0]| <= k <= |Frames(ds)|
    ensures k - 2 - |ds[0]| <= |Frames(ds[1..])|
    ensures var (more, clean) := DecodeAll(Frames(ds[1..])[..k - 2 - |ds[0]|]);
            DecodeAll(Frames(ds)[..k]) == ([ds[0]] + more, clean)
  {
    var d, tail := ds[0], Frames(ds[1..]);
    assert Frames(ds) == EncodeDatagram(d) + tail;
    WholeFrameFirst(d, tail, k - 2 - |d|);
  }

  lemma CountAfterFirst(ds: seq<seq<byte>>, k: nat)
    requires Sendable(ds) && ds != [] && 2 + |ds[0]| <= k
    ensures WholeFrames(ds, k) == 1 + WholeFrames(ds[1..], k - 2 - |ds[0]|)
    ensures Remainder(ds, k) == Remainder(ds[1..], k - 2 - |ds[0]|)
  {
  }

  lemma CutInFirst(ds: seq<seq<byte>>, k: nat)
    requires Sendable(ds) && ds != [] && k < 2 + |ds[0]| && k <= |Frames(ds)|
    ensures DecodeAll(Frames(ds)[..k]) == ([], k < 2)
  {
    CutFrame(ds[0], Frames(ds[1..]), k);
  }

  /**
    A stream cut after `k` bytes yields exactly the datagrams that arrived whole, then an end when
    fewer than two bytes follow, and an error otherwise.
  */
  lemma {:induction false} CutFrames(ds: seq<seq<byte>>, k: nat)
    requires Sendable(ds)
    requires k <= |Frames(ds)|
    ensures DecodeAll(Frames(ds)[..k]) == (ds[..WholeFrames(ds, k)], Remainder(ds, k) < 2)
    decreases |ds|
  {
    if ds != [] {
      if k < 2 + |ds[0]| {
        CutInFirst(ds, k);
      } else {
        CutAfterFirst(ds, k);
        CountAfterFirst(ds, k);
        CutFrames(ds[1..], k - 2 - |ds[0]|);
        OneMoreWhole(ds, WholeFrames(ds, k));
      }
    }
  }

  lemma CutRequest(r: Request, rest: seq<byte>, k: nat)
    requires |r.portName| <= 255 && k < |EncodeRequest(r)|
    ensures DecodeRequest((EncodeRequest(r) + rest)[..k]) == Err(UnexpectedEof)
  {
    var s := (EncodeRequest(r) + rest)[..k];
    if k >= 4 {
      assert s[..4] == EncodeRequest(r)[..4];
      assert s[0] == 1 && s[3] == |r.portName|;
      assert ModeOf(s[2]) == Ok(r.mode);
    }
  }

  /** A tunnel cut anywhere gives the right request or an end-of-stream error, then right datagrams only. */
  lemma CutTunnel(r: Request, ds: seq<seq<byte>>, k: nat)
    requires |r.portName| <= 255 && ValidUtf8(r.portName)
    requires Sendable(ds)
    requires k <= |EncodeRequest(r)| + |Frames(ds)|
    ensures var head := |EncodeRequest(r)|;
            var s := (EncodeRequest(r) + Frames(ds))[..k];
            if k < head then DecodeRequest(s) == Err(UnexpectedEof)
            else
              var rest := Frames(ds)[..k - head];
              DecodeRequest(s) == Ok((r, rest))
              && DecodeAll(rest) == (ds[..WholeFrames(ds, k - head)], Remainder(ds, k - head) < 2)
  {
    var head := |EncodeRequest(r)|;
    if k >= head {
      assert (EncodeRequest(r) + Frames(ds))[..k] == EncodeRequest(r) + Frames(ds)[..k - head];
      RequestRoundTrip(r, Frames(ds)[..k - head]);
      CutFrames(ds, k - head);
    } else {
      CutRequest(r, Frames(ds), k);
    }
  }

  /** Whatever decodes re-encodes to the same bytes, up to the minor version. */
  lemma DecodedReencodes(s: seq<byte>)
    requires DecodeRequest(s).Ok?
    ensures var (r, rest) := DecodeRequest(s).value;
            |r.portName| <= 255 && ValidUtf8(r.portName) && s[1 := MINOR_VERSION] == EncodeRequest(r) + rest
  {
    var n := s[3] as nat;
    assert s == s[..4] + s[4..4 + n] + s[4 + n..];
  }

  // ---------- The streams ----------

  /** Reading on from position `k`. */
  lemma TakeAfter(s: seq<byte>, k: nat, n: nat)
    requires k + n <= |s|
    ensures s[k..][..n] == s[k..k + n] && s[k..][n..] == s[k + n..]
  {
  }

  class Reader {
    var left: seq<byte>

    constructor (bytes: seq<byte>)
      ensures left == bytes
    {
      left := bytes;
    }

    /** `read_exact`: all or an end-of-stream error that swallows what was there. */
    method ReadExact(n: nat) returns (r: Outcome<seq<byte>>)
      modifies this
      ensures if n <= |old(left)| then r == Ok(old(left)[..n]) && left == old(left)[n..]
              else r == Err(UnexpectedEof) && left == []
    {
      if n <= |left| {
        r := Ok(left[..n]);
        left := left[n..];
      } else {
        r := Err(UnexpectedEof);
        left := [];
      }
    }

    method ReadRequest() returns (r: Outcome<Request>)
      modifies this
      ensures match DecodeRequest(old(left))
              case Ok((request, rest)) => r == Ok(request) && left == rest
              case Err(why) => r == Err(why)
      ensures var s := old(left);
              if |s| < 4 then r == Err(UnexpectedEof)
              else if s[0] != 1 then r == Err(UnsupportedVersion(s[0], s[1]))
              else if s[2] > 1 then r == Err(InvalidMode(s[2]))
              else if |s| < 4 + s[3] as int then r == Err(UnexpectedEof)
              else if !ValidUtf8(s[4..4 + s[3] as int]) then r == Err(InvalidMode(0))
              else r == Ok(Request(if s[2] == 0 then Stream else Datagram, s[4..4 + s[3] as int])) && left == s[4 + s[3] as int..]
    {
      var header := ReadExact(4);
      if header.Err? {
        return Err(header.why);
      }
      var h := header.value;
      if h[0] != MAJOR_VERSION {
        return Err(UnsupportedVersion(h[0], h[1]));
      }
      var mode := ModeOf(h[2]);
      if mode.Err? {
        return Err(mode.why);
      }
      var n := h[3] as nat;
      var name: seq<byte> := [];
      if n > 0 {
        var body := ReadExact(n);
        if body.Err? {
          return Err(body.why);
        }
        name := body.value;
      }
      assert |old(left)| >= 4 + n ==> old(left)[4..][..n] == old(left)[4..4 + n] && old(left)[4..][n..] == old(left)[4 + n..];
      if !ValidUtf8(name) {
        return Err(InvalidMode(0));
      }
      return Ok(Request(mode.value, name));
    }

    /** `None` at the end of the stream. */
    method ReadDatagram() returns (r: Outcome<Option<seq<byte>>>)
      modifies this
      ensures match DecodeDatagram(old(left))
              case Frame(data, rest) => r == Ok(Some(data)) && left == rest
              case End => r == Ok(None)
              case Broken => r == Err(UnexpectedEof)
    {
      var prefix := ReadExact(2);
      if prefix.Err? {
        return Ok(None);
      }
      ghost var s := old(left);
      assert prefix.value == s[..2] && left == s[2..];
      var n := LengthOf(prefix.value[0], prefix.value[1]);
      var data := ReadExact(n);
      if data.Err? {
        return Err(data.why);
      }
      TakeAfter(s, 2, n);
      return Ok(Some(data.value));
    }

    /** A rejection starts with a zero major version; anything else is an acceptance. */
    method ReadResponse() returns (r: Outcome<byte>)
      modifies this
      ensures |old(left)| < 3 ==> r == Err(UnexpectedEof)
      ensures |old(left)| >= 3 ==>
                && left == old(left)[3..]
                && r == if old(left)[0] == 0 then Err(Rejected(old(left)[2])) else Ok(old(left)[2])
    {
      var bytes := ReadExact(3);
      if bytes.Err? {
        return Err(bytes.why);
      }
      if bytes.value[0] == 0 {
        return Err(Rejected(bytes.value[2]));
      }
      return Ok(bytes.value[2]);
    }
  }

  class Writer {
    var sent: seq<byte>

    constructor ()
      ensures sent == []
    {
      sent := [];
    }

    method WriteRequest(request: Request) returns (r: Outcome<()>)
      modifies this
      ensures |request.portName| <= 255 ==> r == Ok(()) && sent == old(sent) + EncodeRequest(request)
      ensures |request.portName| <= 255 ==>
                sent == old(sent) + ([1, 0, if request.mode.Stream? then 0 else 1, |request.portName|] + request.portName)
      ensures |request.portName| > 255 ==> r == Err(PortNameTooLong(|request.portName|)) && sent == old(sent)
    {
      var n := |request.portName|;
      if n > 255 {
        return Err(PortNameTooLong(n));
      }
      var buf: seq<byte> := [MAJOR_VERSION];
      buf := buf + [MINOR_VERSION];
      buf := buf + [ModeByte(request.mode)];
      buf := buf + [n];
      buf := buf + request.portName;
      sent := sent + buf;
      return Ok(());
    }

    method WriteDatagram(data: seq<byte>) returns (r: Outcome<()>)
      modifies this
      ensures |data| <= 65535 ==> r == Ok(()) && sent == old(sent) + EncodeDatagram(data)
      ensures |data| <= 65535 ==> sent == old(sent) + ([|data| / 256, |data| % 256] + data)
      ensures |data| > 65535 ==> r == Err(DatagramTooLarge(|data|)) && sent == old(sent)
    {
      if |data| > MAX_DATAGRAM_SIZE {
        return Err(DatagramTooLarge(|data|));
      }
      sent := sent + [|data| / 256, |data| % 256];
      sent := sent + data;
      assert sent == old(sent) + EncodeDatagram(data);
      return Ok(());
    }

    method WriteResponse(code: Outcome<Mode>)
      requires code.Err? ==> code.why.Rejected?
      modifies this
      ensures sent == old(sent) + match code
                                  case Ok(mode) => [1, 0, if mode.Stream? then 0 else 1]
                                  case Err(why) => [0, 0, why.code]
      ensures ResponseOf(sent[|old(sent)|..]) == match code
                                                 case Ok(mode) => Ok(ModeByte(mode))
                                                 case Err(why) => Err(why)
    {
      var bytes: seq<byte>;
      match code {
        case Ok(mode) => bytes := [MAJOR_VERSION, MINOR_VERSION, ModeByte(mode)];
        case Err(why) => bytes := [0, 0, why.code];
      }
      sent := sent + bytes;
    }
  }

  /** What `ReadResponse` makes of three bytes. */
  function ResponseOf(s: seq<byte>): Outcome<byte>
    requires |s| == 3
  {
    if s[0] == 0 then Err(Rejected(s[2])) else Ok(s[2])
  }
}
