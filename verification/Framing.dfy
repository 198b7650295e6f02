// How inputs travel to a runner: a length header and the text, over a pipe that may move
// fewer bytes than asked and may be interrupted any number of times.
module Framing {
  import opened Prelude
  import opened Words
  import opened Bytes

  // What the kernel does at one call: be interrupted, fail, or move some bytes but not all.
  // A call it has no plan for moves everything.
  datatype Reply = Interrupted | Failed | Short(moved: nat)

  predicate NeverFails(plan: seq<Reply>) {
    Failed !in plan
  }

  // The bytes in a pipe: those written and not yet read, or, seen from the reader, all that
  // the writer will still write.
  class Pipe {
    var data: seq<byte>
    var plan: seq<Reply>

    constructor (plan: seq<Reply>)
      ensures data == [] && this.plan == plan
    {
      data := [];
      this.plan := plan;
    }

    // One write call. A result of -1 is an interruption (EINTR) or a real error.
    method WriteCall(bytes: seq<byte>) returns (n: int, eintr: bool)
      requires bytes != []
      modifies this
      ensures -1 <= n <= |bytes| && n != 0
      ensures n == -1 ==> data == old(data) && old(plan) != [] && eintr == (old(plan)[0] == Interrupted)
      ensures n != -1 ==> data == old(data) + bytes[..n]
      ensures n == -1 && !eintr ==> old(plan)[0] == Failed
      ensures plan == if old(plan) == [] then [] else old(plan)[1..]
    {
      eintr := false;
      if plan == [] {
        data := data + bytes;
        return |bytes|, false;
      }
      var reply := plan[0];
      plan := plan[1..];
      match reply
      case Interrupted => n, eintr := -1, true;
      case Failed => n := -1;
      case Short(moved) =>
        n := if 0 < moved < |bytes| then moved else |bytes|;
        data := data + bytes[..n];
    }

    // One read call; 0 is the end of the stream.
    method ReadCall(count: nat) returns (n: int, eintr: bool, bytes: seq<byte>)
      requires count > 0
      modifies this
      ensures -1 <= n <= count && n <= |old(data)|
      ensures n == -1 ==> data == old(data) && old(plan) != [] && eintr == (old(plan)[0] == Interrupted)
      ensures n != -1 ==> bytes == old(data)[..n] && data == old(data)[n..]
      ensures n == 0 <==> n != -1 && old(data) == []
      ensures n == -1 && !eintr ==> old(plan)[0] == Failed
      ensures plan == if old(plan) == [] then [] else old(plan)[1..]
    {
      eintr, bytes := false, [];
      var most := if count < |data| then count else |data|;
      n := most;
      if plan != [] {
        var reply := plan[0];
        plan := plan[1..];
        match reply
        case Interrupted => n, eintr := -1, true;
        case Failed => n := -1;
        case Short(moved) => n := if 0 < moved < most then moved else most;
      }
      if n != -1 {
        bytes, data := data[..n], data[n..];
      }
    }
  }

  // helpr_write_wrap: everything or -1, with some proper prefix written in that case.
  method WriteWrap(pipe: Pipe, buf: seq<byte>) returns (n: int)
    modifies pipe
    ensures n == |buf| || n == -1
    ensures n != -1 ==> pipe.data == old(pipe.data) + buf
    ensures n == -1 ==> exists k :: 0 <= k < |buf| && pipe.data == old(pipe.data) + buf[..k]
    ensures NeverFails(old(pipe.plan)) ==> n != -1 && NeverFails(pipe.plan)
  {
    var written := 0;
    while written < |buf|
      invariant 0 <= written <= |buf|
      invariant pipe.data == old(pipe.data) + buf[..written]
      invariant NeverFails(old(pipe.plan)) ==> NeverFails(pipe.plan)
      decreases |buf| - written, |pipe.plan|
    {
      var m, eintr := pipe.WriteCall(buf[written..]);
      if m == -1 {
        if eintr {
          continue;
        }
        return -1;
      }
      assert buf[..written] + buf[written..][..m] == buf[..written + m];
      written := written + m;
    }
    n := written;
  }

  // helpr_read_wrap: the bytes asked for, or fewer at the end of the stream, or -1.
  method ReadWrap(pipe: Pipe, count: nat) returns (n: int, got: seq<byte>)
    modifies pipe
    ensures n == -1 || (0 <= n == |got| <= |old(pipe.data)| && got == old(pipe.data)[..n] && pipe.data == old(pipe.data)[n..])
    ensures n != -1 ==> n == if count < |old(pipe.data)| then count else |old(pipe.data)|
    ensures NeverFails(old(pipe.plan)) ==> n != -1 && NeverFails(pipe.plan)
  {
    got := [];
    ghost var stream := pipe.data;
    while |got| < count
      invariant |got| <= count && |got| <= |stream|
      invariant got == stream[..|got|] && pipe.data == stream[|got|..]
      invariant NeverFails(old(pipe.plan)) ==> NeverFails(pipe.plan)
      decreases count - |got|, |pipe.plan|
    {
      var m, eintr, bytes := pipe.ReadCall(count - |got|);
      if m == -1 {
        if eintr {
          continue;
        }
        return -1, got;
      }
      if m == 0 {
        break;
      }
      got := got + bytes;
    }
    n := |got|;
  }

  // ---------- The header ----------

  function ByteOf(n: nat): (b: byte)
    requires n < 256
    ensures b as int == n
  {
    if n == 0 then 0 else
      BumpWraps(ByteOf(n - 1));
      ByteOf(n - 1) + 1
  }

  // A size_t in memory, lowest byte first.
  function Encode(n: nat, k: nat): (s: seq<byte>)
    ensures |s| == k
  {
    if k == 0 then [] else [ByteOf(n % 256)] + Encode(n / 256, k - 1)
  }

  // The number whose lowest bytes are s and whose others are zero.
  function Decode(s: seq<byte>): nat {
    if s == [] then 0 else s[0] as int + 256 * Decode(s[1..])
  }

  function Power(k: nat): (p: nat)
    ensures p > 0
  {
    if k == 0 then 1 else 256 * Power(k - 1)
  }

  // The low k bytes of a number are the number modulo 256^k.
  lemma {:induction false} DecodeEncode(n: nat, k: nat)
    ensures Decode(Encode(n, k)) == n % Power(k)
  {
    if k > 0 {
      DecodeEncode(n / 256, k - 1);
      assert Encode(n, k)[1..] == Encode(n / 256, k - 1);
      ModByParts(n, Power(k - 1));
    }
  }

  lemma ModByParts(n: nat, p: nat)
    requires p > 0
    ensures n % (256 * p) == n % 256 + 256 * (n / 256 % p)
  {
    var m := n / 256;
    var q, r := m / p, m % p;
    assert m == p * q + r;
    assert n == (256 * p) * q + (256 * r + n % 256);
    RemainderIs(n, 256 * p, q, 256 * r + n % 256);
  }

  lemma RemainderIs(a: nat, n: nat, q: nat, r: nat)
    requires a == n * q + r && r < n
    ensures a % n == r
  {
    QuotientIs(a, n, q, r);
  }

  lemma {:induction false} EncodePrefix(n: nat, k: nat, j: nat)
    requires j <= k
    ensures Encode(n, k)[..j] == Encode(n, j)
  {
    if j > 0 {
      EncodePrefix(n / 256, k - 1, j - 1);
    }
  }

  lemma HeaderReadsBack(n: word)
    ensures Decode(Encode(n, 8)) == n
  {
    DecodeEncode(n, 8);
    assert Power(8) == WORD_RANGE by {
      assert Power(4) == 0x1_0000_0000;
      PowerAdd(4, 4);
    }
  }

  // Byte k of the header is the k-th lowest of the length.
  lemma {:induction false} HeaderByte(n: nat, k: nat, j: nat)
    requires j < k
    ensures Encode(n, k)[j] as int == n / Power(j) % 256
  {
    if j > 0 {
      HeaderByte(n / 256, k - 1, j - 1);
      DivideTwice(n, Power(j - 1));
    }
  }

  lemma DivideTwice(n: nat, p: nat)
    requires p > 0
    ensures n / 256 / p == n / (256 * p)
  {
    var m := n / 256;
    var q, r := m / p, m % p;
    assert m == p * q + r;
    assert n == (256 * p) * q + (256 * r + n % 256);
    QuotientIs(n, 256 * p, q, 256 * r + n % 256);
  }

  lemma {:induction false} PowerAdd(j: nat, k: nat)
    ensures Power(j + k) == Power(j) * Power(k)
  {
    if j > 0 {
      PowerAdd(j - 1, k);
    }
  }

  // ---------- Frames ----------

  const HEADER: nat := 8

  function Frame(text: cstring): seq<byte>
    requires |text| < WORD_RANGE
  {
    Encode(|text|, HEADER) + text
  }

  // What runner_receive_fuzzer_input makes of a stream: the input, if any, and what is left
  // to read. Only an empty read is an error; a short one is taken as it comes, and the
  // buffer it lands in is zeroed first.
  function Take(data: seq<byte>, count: nat): seq<byte> {
    if count < |data| then data[..count] else data
  }

  // The two reads of one receive: the header, and then as much text as it announces.
  function HeaderOf(data: seq<byte>): seq<byte> {
    Take(data, HEADER)
  }

  function PayloadOf(data: seq<byte>): seq<byte> {
    Take(data[|HeaderOf(data)|..], Decode(HeaderOf(data)))
  }

  function Received(data: seq<byte>): Option<cstring> {
    if HeaderOf(data) == [] then None
    else if Decode(HeaderOf(data)) == 0 then Some([])
    else if PayloadOf(data) == [] then None
    else Some(UpToNul(PayloadOf(data)))
  }

  function LeftOver(data: seq<byte>): seq<byte> {
    data[|HeaderOf(data)| + |PayloadOf(data)|..]
  }

  method SendInput(pipe: Pipe, text: cstring) returns (ok: bool)
    requires |text| < WORD_RANGE
    modifies pipe
    ensures ok ==> pipe.data == old(pipe.data) + Frame(text)
    ensures !ok ==> exists k :: 0 <= k < |Frame(text)| && pipe.data == old(pipe.data) + Frame(text)[..k]
    ensures NeverFails(old(pipe.plan)) ==> ok && NeverFails(pipe.plan)
  {
    ghost var before, header := pipe.data, Encode(|text|, HEADER);
    var n := WriteWrap(pipe, Encode(|text|, HEADER));
    if n == -1 {
      ghost var k :| 0 <= k < |header| && pipe.data == before + header[..k];
      assert Frame(text)[..k] == header[..k];
      return false;
    }
    if |text| > 0 {
      n := WriteWrap(pipe, text);
      if n == -1 {
        ghost var k :| 0 <= k < |text| && pipe.data == before + header + text[..k];
        assert Frame(text)[..HEADER + k] == header + text[..k];
        assert pipe.data == before + Frame(text)[..HEADER + k];
        return false;
      }
    }
    assert pipe.data == before + Frame(text);
    ok := true;
  }

  // A read error yields no input; otherwise the answer is that of the stream.
  method ReceiveInput(pipe: Pipe) returns (input: Option<cstring>)
    modifies pipe
    ensures input == None || input == Received(old(pipe.data))
    ensures NeverFails(old(pipe.plan)) ==>
              input == Received(old(pipe.data)) && pipe.data == LeftOver(old(pipe.data)) && NeverFails(pipe.plan)
  {
    ghost var data := pipe.data;
    var n, header := ReadWrap(pipe, HEADER);
    if n <= 0 {
      return None;
    }
    assert header == HeaderOf(data);
    var len := Decode(header);
    var m, payload := ReadWrap(pipe, len);
    if m != -1 {
      assert payload == PayloadOf(data);
      assert data[|header|..][|payload|..] == data[|header| + |payload|..];
    }
    if len > 0 && m <= 0 {
      return None;
    }
    input := if len == 0 then Some([]) else Some(UpToNul(payload));
  }

  // ---------- The laws ----------

  lemma FrameArrives(text: cstring, rest: seq<byte>)
    requires |text| < WORD_RANGE
    ensures Received(Frame(text) + rest) == Some(text)
    ensures LeftOver(Frame(text) + rest) == rest
  {
    var data, header := Frame(text) + rest, Encode(|text|, HEADER);
    HeaderReadsBack(|text|);
    assert Take(data, HEADER) == header;
    assert data[HEADER..] == text + rest;
    assert Take(text + rest, |text|) == text;
    UpToNulWhole(text);
  }

  function Stream(texts: seq<cstring>): seq<byte>
    requires forall t | t in texts :: |t| < WORD_RANGE
  {
    if texts == [] then [] else Frame(texts[0]) + Stream(texts[1..])
  }

  // The inputs that repeated receives take from a stream.
  function Texts(data: seq<byte>, count: nat): seq<Option<cstring>> {
    if count == 0 then [] else [Received(data)] + Texts(LeftOver(data), count - 1)
  }

  // Whatever is sent arrives, in order, and nothing is left over.
  lemma {:induction false} StreamArrives(texts: seq<cstring>)
    requires forall t | t in texts :: |t| < WORD_RANGE
    ensures |Texts(Stream(texts), |texts|)| == |texts|
    ensures forall i | 0 <= i < |texts| :: Texts(Stream(texts), |texts|)[i] == Some(texts[i])
  {
    if texts != [] {
      FrameArrives(texts[0], Stream(texts[1..]));
      StreamArrives(texts[1..]);
    }
  }

  // The same through the two loops, for any interruptions and short transfers.
  method Transfer(texts: seq<cstring>, plan: seq<Reply>) returns (received: seq<Option<cstring>>)
    requires NeverFails(plan) && forall t | t in texts :: |t| < WORD_RANGE
    ensures |received| == |texts|
    ensures forall i | 0 <= i < |texts| :: received[i] == Some(texts[i])
  {
    var pipe := new Pipe(plan);
    received := [];
    for i := 0 to |texts|
      invariant pipe.data == [] && NeverFails(pipe.plan)
      invariant |received| == i
      invariant forall j | 0 <= j < i :: received[j] == Some(texts[j])
    {
      var ok := SendInput(pipe, texts[i]);
      assert pipe.data == Frame(texts[i]) + [];
      FrameArrives(texts[i], []);
      var input := ReceiveInput(pipe);
      received := received + [input];
    }
  }

  // A frame cut short by the death of its writer is not always noticed: the read wraps
  // accept a short header or a short text. It is noticed exactly when the cut falls at
  // either end of the header, or inside it after bytes that are not all zero.
  lemma CutFrameNoticed(text: cstring, k: nat)
    requires |text| < WORD_RANGE && k < |Frame(text)|
    ensures Received(Frame(text)[..k]) == None <==> k == 0 || k == HEADER || (k < HEADER && |text| % Power(k) != 0)
    ensures k > HEADER ==> Received(Frame(text)[..k]) == Some(text[..k - HEADER]) && LeftOver(Frame(text)[..k]) == []
  {
    var data, n := Frame(text)[..k], |text|;
    if k <= HEADER {
      EncodePrefix(n, HEADER, k);
      assert data == Encode(n, k) == Take(data, HEADER);
      DecodeEncode(n, k);
      if k == HEADER {
        HeaderReadsBack(n);
      }
    } else {
      HeaderReadsBack(n);
      assert Take(data, HEADER) == Encode(n, HEADER);
      assert data[HEADER..] == text[..k - HEADER] == Take(data[HEADER..], n);
      UpToNulWhole(text[..k - HEADER]);
    }
  }
}
