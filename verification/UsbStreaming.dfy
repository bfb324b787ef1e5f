/** UsbStream in stream mode: reading through an internal buffer that is resized on demand, from
    a device that may return fewer bytes than asked for, or fail; and the hexadecimal printer. */
module UsbStreaming {
  newtype Byte = x: int | 0 <= x < 0x100

  /** The device: `stream` is what it will ever send, `sent` how much of it was read. */
  class Device {
    const stream: nat -> Byte
    var sent: nat

    constructor (stream: nat -> Byte)
      ensures this.stream == stream && sent == 0
    {
      this.stream := stream;
      sent := 0;
    }

    /** read(2): fails with -1, or returns any number of bytes up to `size`. */
    method Read(size: nat) returns (result: int, bytes: seq<Byte>)
      modifies this
      ensures -1 <= result <= size && |bytes| == (if result > 0 then result else 0)
      ensures sent == old(sent) + |bytes| && bytes == Slice(stream, old(sent), |bytes|)
    {
      result :| -1 <= result <= size;
      bytes := Slice(stream, sent, if result > 0 then result else 0);
      sent := sent + |bytes|;
    }
  }

  function Slice(stream: nat -> Byte, from: nat, n: nat): seq<Byte> {
    seq(n, k requires 0 <= k < n => stream(from + k))
  }

  function Zeros(n: nat): seq<Byte> { seq(n, _ => 0) }

  /** The message after a read at `start`: what was read, then zeros. */
  function AfterRead(msg: seq<Byte>, start: nat, bytes: seq<Byte>): seq<Byte>
    requires start + |bytes| <= |msg|
  {
    msg[..start] + bytes + Zeros(|msg| - start - |bytes|)
  }

  /** The same byte by byte, for n bytes of the stream from `from` on. */
  predicate ReadInto(before: seq<Byte>, msg: seq<Byte>, start: nat, stream: nat -> Byte, from: nat, n: nat) {
    && |msg| == |before|
    && forall k :: 0 <= k < |msg| ==>
         msg[k] == if k < start then before[k] else if k < start + n then stream(from + (k - start)) else 0
  }

  lemma AfterReadAt(msg: seq<Byte>, start: nat, stream: nat -> Byte, from: nat, n: nat)
    requires start + n <= |msg|
    ensures ReadInto(msg, AfterRead(msg, start, Slice(stream, from, n)), start, stream, from, n)
  {
  }

  class UsbStream {
    const device: Device
    var buffer: array<Byte>
    var returnValue: int

    constructor (device: Device)
      ensures this.device == device && fresh(buffer) && buffer.Length == 100
    {
      this.device := device;
      buffer := new Byte[100](_ => 0);
      returnValue := 0;
    }

    method ReadDeviceRaw(msg: array<Byte>, start: nat) returns (result: int)
      requires start <= msg.Length && msg != buffer
      modifies this, buffer, msg, device
      ensures -1 <= result <= msg.Length - start && returnValue == result
      ensures device.sent == old(device.sent) + if result > 0 then result else 0
      ensures msg[..] ==
        AfterRead(old(msg[..]), start, Slice(device.stream, old(device.sent), device.sent - old(device.sent)))
      ensures ReadInto(old(msg[..]), msg[..], start, device.stream, old(device.sent), device.sent - old(device.sent))
      ensures buffer == old(buffer) || fresh(buffer)
      ensures buffer.Length == if msg.Length - start > old(buffer.Length) then 10 * msg.Length else old(buffer.Length)
      ensures buffer.Length >= msg.Length - start && msg[start..] == buffer[..msg.Length - start]
    {
      ghost var before := msg[..];
      var n := msg.Length - start;
      if n > buffer.Length {
        buffer := new Byte[10 * msg.Length](_ => 0);
      }
      forall k | 0 <= k < buffer.Length { buffer[k] := 0; }
      var bytes;
      returnValue, bytes := device.Read(n);
      forall k | 0 <= k < |bytes| { buffer[k] := bytes[k]; }
      forall k | 0 <= k < n { msg[start + k] := buffer[k]; }
      assert msg[..] == AfterRead(before, start, bytes);
      AfterReadAt(before, start, device.stream, old(device.sent), |bytes|);
      assert msg[start..] == buffer[..n];
      result := returnValue;
    }

    /** True exactly when the whole message was read at once. */
    method ReadDevice(msg: array<Byte>) returns (complete: bool)
      requires msg != buffer
      modifies this, buffer, msg, device
      ensures complete <==> returnValue == msg.Length
      ensures -1 <= returnValue <= msg.Length
      ensures device.sent == old(device.sent) + if returnValue > 0 then returnValue else 0
      ensures ReadInto(old(msg[..]), msg[..], 0, device.stream, old(device.sent), device.sent - old(device.sent))
      ensures complete ==> msg[..] == Slice(device.stream, old(device.sent), msg.Length)
      ensures complete ==> device.sent == old(device.sent) + msg.Length
      ensures buffer == old(buffer) || fresh(buffer)
    {
      var result := ReadDeviceRaw(msg, 0);
      returnValue := result;
      if returnValue < 0 {
        return false;
      } else if returnValue != msg.Length {
        return false;
      }
      assert msg[0..] == msg[..] == buffer[..msg.Length];
      forall k | 0 <= k < msg.Length { msg[k] := buffer[k]; }
      complete := true;
    }
  }

  // ----------------------------------------------------------------------- reassembly

  function Concat(parts: seq<seq<Byte>>): seq<Byte> {
    if parts == [] then [] else Concat(parts[..|parts| - 1]) + parts[|parts| - 1]
  }

  /** Reads in a row, each starting where the bytes of the one before ended. */
  function Reassembled(msg: seq<Byte>, parts: seq<seq<Byte>>): (r: seq<Byte>)
    requires |Concat(parts)| <= |msg|
    ensures |r| == |msg|
  {
    if parts == [] then msg
    else
      var before := parts[..|parts| - 1];
      AfterRead(Reassembled(msg, before), |Concat(before)|, parts[|parts| - 1])
  }

  /** The parts that a device sends one after the other, of any sizes. */
  function Parts(stream: nat -> Byte, from: nat, sizes: seq<nat>): seq<seq<Byte>> {
    if sizes == [] then []
    else
      var rest := sizes[..|sizes| - 1];
      Parts(stream, from, rest) + [Slice(stream, from + Total(rest), sizes[|sizes| - 1])]
  }

  function Total(sizes: seq<nat>): nat {
    if sizes == [] then 0 else Total(sizes[..|sizes| - 1]) + sizes[|sizes| - 1]
  }

  lemma SlicesJoin(stream: nat -> Byte, from: nat, m: nat, n: nat)
    ensures Slice(stream, from, m) + Slice(stream, from + m, n) == Slice(stream, from, m + n)
  {
  }

  lemma {:induction false} PartsAreTheStream(stream: nat -> Byte, from: nat, sizes: seq<nat>)
    ensures Concat(Parts(stream, from, sizes)) == Slice(stream, from, Total(sizes))
    decreases |sizes|
  {
    if sizes == [] {
    } else {
      var rest, n := sizes[..|sizes| - 1], sizes[|sizes| - 1];
      PartsAreTheStream(stream, from, rest);
      var parts := Parts(stream, from, rest);
      assert Parts(stream, from, sizes)[..|parts|] == parts;
      SlicesJoin(stream, from, Total(rest), n);
    }
  }

  lemma {:induction false} ReassembledStartsWith(msg: seq<Byte>, parts: seq<seq<Byte>>)
    requires |Concat(parts)| <= |msg|
    ensures Reassembled(msg, parts)[..|Concat(parts)|] == Concat(parts)
    decreases |parts|
  {
    if parts == [] {
    } else {
      var before, last := parts[..|parts| - 1], parts[|parts| - 1];
      ReassembledStartsWith(msg, before);
      var n, earlier := |Concat(before)|, Reassembled(msg, before);
      assert AfterRead(earlier, n, last)[..n + |last|] == earlier[..n] + last;
    }
  }

  /** For every pattern of short and failed reads (size 0), the message starts with exactly the
      bytes the device sent, in order. */
  lemma {:induction false} ShortReadsReassemble(msg: seq<Byte>, stream: nat -> Byte, from: nat, sizes: seq<nat>)
    requires Total(sizes) <= |msg|
    ensures |Concat(Parts(stream, from, sizes))| == Total(sizes)
    ensures Reassembled(msg, Parts(stream, from, sizes))[..Total(sizes)] == Slice(stream, from, Total(sizes))
  {
    PartsAreTheStream(stream, from, sizes);
    ReassembledStartsWith(msg, Parts(stream, from, sizes));
  }

  lemma {:induction false} OneMorePart(stream: nat -> Byte, from: nat, sizes: seq<nat>, n: nat)
    ensures Total(sizes + [n]) == Total(sizes) + n
    ensures Parts(stream, from, sizes + [n]) == Parts(stream, from, sizes) + [Slice(stream, from + Total(sizes), n)]
  {
    assert (sizes + [n])[..|sizes|] == sizes;
  }

  lemma {:induction false} OneMoreRead(msg: seq<Byte>, parts: seq<seq<Byte>>, part: seq<Byte>)
    requires |Concat(parts)| + |part| <= |msg|
    ensures |Concat(parts + [part])| == |Concat(parts)| + |part|
    ensures Reassembled(msg, parts + [part]) == AfterRead(Reassembled(msg, parts), |Concat(parts)|, part)
  {
    assert (parts + [part])[..|parts|] == parts;
  }

  /** What the message `before` has become by reads of these sizes, from this place in the
      stream on. */
  ghost predicate ReadSoFar(msg: seq<Byte>, before: seq<Byte>, stream: nat -> Byte, from: nat, sizes: seq<nat>) {
    && |msg| == |before| && Total(sizes) <= |before|
    && |Concat(Parts(stream, from, sizes))| == Total(sizes)
    && msg == Reassembled(before, Parts(stream, from, sizes))
  }

  lemma {:induction false} ReadOnce(msg: seq<Byte>, before: seq<Byte>, stream: nat -> Byte, from: nat,
                                    sizes: seq<nat>, n: nat)
    requires ReadSoFar(msg, before, stream, from, sizes) && Total(sizes) + n <= |msg|
    ensures Total(sizes + [n]) == Total(sizes) + n
    ensures ReadSoFar(AfterRead(msg, Total(sizes), Slice(stream, from + Total(sizes), n)),
                      before, stream, from, sizes + [n])
  {
    OneMorePart(stream, from, sizes, n);
    OneMoreRead(before, Parts(stream, from, sizes), Slice(stream, from + Total(sizes), n));
  }

  /** One such call: n is how many bytes it got. */
  method ReadNext(usb: UsbStream, msg: array<Byte>, start: nat) returns (n: nat)
    requires start <= msg.Length && msg != usb.buffer
    modifies usb, usb.buffer, msg, usb.device
    ensures start + n <= msg.Length && usb.device.sent == old(usb.device.sent) + n
    ensures msg[..] == AfterRead(old(msg[..]), start, Slice(usb.device.stream, old(usb.device.sent), n))
    ensures usb.buffer == old(usb.buffer) || fresh(usb.buffer)
  {
    var result := usb.ReadDeviceRaw(msg, start);
    n := if result > 0 then result else 0;
  }

  /** Calls of ReadDeviceRaw in a row, each with `start` advanced by what the one before
      returned: however short the reads are, whichever fail, and whenever the internal buffer is
      resized, the message starts with the next `start` bytes of the device. */
  method ReadRepeatedly(usb: UsbStream, msg: array<Byte>, calls: nat) returns (start: nat, ghost sizes: seq<nat>)
    requires msg != usb.buffer
    modifies usb, usb.buffer, msg, usb.device
    ensures start <= msg.Length && usb.device.sent == old(usb.device.sent) + start
    ensures msg[..start] == Slice(usb.device.stream, old(usb.device.sent), start)
    ensures |sizes| == calls && Total(sizes) == start
    ensures ReadSoFar(msg[..], old(msg[..]), usb.device.stream, old(usb.device.sent), sizes)
    ensures usb.buffer == old(usb.buffer) || fresh(usb.buffer)
  {
    start, sizes := 0, [];
    ghost var stream, from, before := usb.device.stream, usb.device.sent, msg[..];
    for i := 0 to calls
      invariant start <= msg.Length && usb.device.sent == from + start
      invariant |sizes| == i && Total(sizes) == start
      invariant ReadSoFar(msg[..], before, stream, from, sizes)
      invariant msg != usb.buffer && (usb.buffer == old(usb.buffer) || fresh(usb.buffer))
    {
      ghost var earlier := msg[..];
      var n := ReadNext(usb, msg, start);
      ReadOnce(earlier, before, stream, from, sizes, n);
      start, sizes := start + n, sizes + [n];
    }
    ShortReadsReassemble(before, stream, from, sizes);
  }

  // ------------------------------------------------------------------------- printing

  function HexDigit(n: nat): char
    requires n < 16
  {
    "0123456789ABCDEF"[n]
  }

  /** One byte: two digits, upper case, padded with zero, and a space. */
  function HexByte(b: Byte): string { [HexDigit(b as int / 16), HexDigit(b as int % 16), ' '] }

  function HexBytes(msg: seq<Byte>): string {
    if msg == [] then "" else HexBytes(msg[..|msg| - 1]) + HexByte(msg[|msg| - 1])
  }

  function DebugString(msg: seq<Byte>): string { "[ " + HexBytes(msg) + "]" }

  /** The value of an upper-case hexadecimal digit, -1 for any other character. */
  function HexValue(c: char): int {
    if '0' <= c <= '9' then c as int - '0' as int
    else if 'A' <= c <= 'F' then c as int - 'A' as int + 10
    else -1
  }

  /** Two hexadecimal digits, the high one first, that stand for b. */
  predicate StandsFor(hi: char, lo: char, b: Byte) {
    HexValue(hi) >= 0 && HexValue(lo) >= 0 && 16 * HexValue(hi) + HexValue(lo) == b as int
  }

  lemma HexDigitValue(n: nat)
    requires n < 16
    ensures HexValue(HexDigit(n)) == n
  {
  }

  lemma HexByteStandsFor(b: Byte)
    ensures |HexByte(b)| == 3 && StandsFor(HexByte(b)[0], HexByte(b)[1], b) && HexByte(b)[2] == ' '
  {
    HexDigitValue(b as int / 16);
    HexDigitValue(b as int % 16);
  }

  lemma {:induction false} HexBytesStandFor(msg: seq<Byte>)
    ensures |HexBytes(msg)| == 3 * |msg|
    ensures forall k :: 0 <= k < |msg| ==>
      StandsFor(HexBytes(msg)[3 * k], HexBytes(msg)[3 * k + 1], msg[k]) && HexBytes(msg)[3 * k + 2] == ' '
    decreases |msg|
  {
    if msg == [] {
    } else {
      var rest, last := msg[..|msg| - 1], |msg| - 1;
      HexBytesStandFor(rest);
      HexByteStandsFor(msg[last]);
      var text := HexBytes(rest) + HexByte(msg[last]);
      forall k | 0 <= k < |msg|
        ensures StandsFor(text[3 * k], text[3 * k + 1], msg[k]) && text[3 * k + 2] == ' '
      {
        if k < last { assert rest[k] == msg[k]; }
      }
    }
  }

  /** What a printout says: the first n bytes of the message, two digits and a space each, between
      brackets. */
  predicate Prints(text: string, msg: seq<Byte>, n: nat)
    requires n <= |msg|
  {
    && |text| == 3 * n + 3
    && text[0] == '[' && text[1] == ' ' && text[3 * n + 2] == ']'
    && forall k :: 0 <= k < n ==> StandsFor(text[3 * k + 2], text[3 * k + 3], msg[k]) && text[3 * k + 4] == ' '
  }

  lemma BetweenBrackets(inner: string, k: nat)
    requires k < |inner|
    ensures ("[ " + inner + "]")[k + 2] == inner[k]
  {
  }

  lemma DebugStringPrints(msg: seq<Byte>, n: nat)
    requires n <= |msg|
    ensures Prints(DebugString(msg[..n]), msg, n)
  {
    var shown := msg[..n];
    HexBytesStandFor(shown);
    forall k | 0 <= k < n
      ensures var text := DebugString(shown);
        StandsFor(text[3 * k + 2], text[3 * k + 3], msg[k]) && text[3 * k + 4] == ' '
    {
      assert shown[k] == msg[k];
      BetweenBrackets(HexBytes(shown), 3 * k);
      BetweenBrackets(HexBytes(shown), 3 * k + 1);
      BetweenBrackets(HexBytes(shown), 3 * k + 2);
    }
  }

  /** A negative bound, the default, means the whole message, as does one beyond its end. */
  method MsgDebugString(msg: seq<Byte>, until: int) returns (text: string)
    ensures 0 <= until < |msg| ==> Prints(text, msg, until)
    ensures until < 0 || until >= |msg| ==> Prints(text, msg, |msg|)
    ensures text == DebugString(if 0 <= until < |msg| then msg[..until] else msg)
  {
    var bound := if until < 0 then |msg| else until;
    text := "[ ";
    var n := if |msg| < bound then |msg| else bound;
    for i := 0 to n
      invariant text == "[ " + HexBytes(msg[..i])
    {
      assert msg[..i + 1][..i] == msg[..i];
      text := text + [HexDigit(msg[i] as int / 16), HexDigit(msg[i] as int % 16)] + " ";
    }
    text := text + "]";
    assert msg[..|msg|] == msg;
    assert text == DebugString(msg[..n]);
    DebugStringPrints(msg, n);
  }

  lemma HexDigitsDiffer(m: nat, n: nat)
    requires m < 16 && n < 16 && HexDigit(m) == HexDigit(n)
    ensures m == n
  {
  }

  lemma HexBytesDiffer(a: Byte, b: Byte)
    requires HexByte(a) == HexByte(b)
    ensures a == b
  {
    assert HexByte(a)[0] == HexByte(b)[0] && HexByte(a)[1] == HexByte(b)[1];
    HexDigitsDiffer(a as int / 16, b as int / 16);
    HexDigitsDiffer(a as int % 16, b as int % 16);
    assert a as int == 16 * (a as int / 16) + a as int % 16;
  }

  lemma {:induction false} HexLength(msg: seq<Byte>)
    ensures |HexBytes(msg)| == 3 * |msg|
    decreases |msg|
  {
    if msg == [] {
    } else {
      HexLength(msg[..|msg| - 1]);
    }
  }

  /** The printout of n bytes has 3n + 3 characters. */
  lemma DebugStringLength(msg: seq<Byte>)
    ensures |DebugString(msg)| == 3 * |msg| + 3
  {
    HexLength(msg);
  }

  lemma SplitAt(x: string, y: string, x': string, y': string)
    requires |x| == |x'| && x + y == x' + y'
    ensures x == x' && y == y'
  {
    assert x == (x + y)[..|x|] && x' == (x' + y')[..|x|];
    assert y == (x + y)[|x|..] && y' == (x' + y')[|x|..];
  }

  lemma {:induction false} HexIsInjective(a: seq<Byte>, b: seq<Byte>)
    requires HexBytes(a) == HexBytes(b)
    ensures a == b
    decreases |a|
  {
    HexLength(a);
    HexLength(b);
    if a == [] {
    } else {
      var n := |a| - 1;
      HexLength(a[..n]);
      HexLength(b[..n]);
      SplitAt(HexBytes(a[..n]), HexByte(a[n]), HexBytes(b[..n]), HexByte(b[n]));
      HexIsInjective(a[..n], b[..n]);
      HexBytesDiffer(a[n], b[n]);
      assert a == a[..n] + [a[n]] && b == b[..n] + [b[n]];
    }
  }

  /** Different messages print differently. */
  lemma DebugStringIsInjective(a: seq<Byte>, b: seq<Byte>)
    ensures DebugString(a) == DebugString(b) <==> a == b
  {
    if DebugString(a) == DebugString(b) {
      assert HexBytes(a) == DebugString(a)[2..|DebugString(a)| - 1];
      assert HexBytes(b) == DebugString(b)[2..|DebugString(b)| - 1];
      HexIsInjective(a, b);
    }
  }
}
