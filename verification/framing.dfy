/** Messages on a socket: a length of five characters, then the message. Sockets take
    and give bytes in pieces of any size; messages survive that. */
module Framing {
  import opened Resources
  import opened Decimal

  const HEADER: nat := 5
  const LONGEST: nat := 99999

  // ---------------------------------------------------------------- headers

  function Spaces(n: nat): string { seq(n, _ => ' ') }

  /** The length, padded with spaces. */
  function Header(n: nat): string { Dec(n) + Spaces(if |Dec(n)| < HEADER then HEADER - |Dec(n)| else 0) }

  /** The digits a text starts with. */
  function Digits(s: string): (d: string)
    ensures forall i | 0 <= i < |d| :: IsDigit(d[i])
  {
    if s == "" || !IsDigit(s[0]) then "" else [s[0]] + Digits(s[1..])
  }

  /** What the number at the start of a text comes to; 0 if there is none. */
  function Atoi(s: string): int
    decreases |s|
  {
    if s != "" && s[0] == ' ' then Atoi(s[1..])
    else if s != "" && s[0] == '-' then 0 - Read(Digits(s[1..]))
    else Read(Digits(if s != "" && s[0] == '+' then s[1..] else s))
  }

  lemma {:induction false} DigitsStop(d: string, rest: string)
    requires (forall i | 0 <= i < |d| :: IsDigit(d[i])) && (rest != "" ==> !IsDigit(rest[0]))
    ensures Digits(d + rest) == d
  {
    if d == "" {
      assert d + rest == rest;
    } else {
      assert (d + rest)[0] == d[0] && (d + rest)[1..] == d[1..] + rest;
      DigitsStop(d[1..], rest);
    }
  }

  lemma {:induction false} FiveDigits(n: nat, k: nat)
    requires n < Power(k) && k > 0
    ensures |Dec(n)| <= k
    decreases k
  {
    if n >= 10 { FiveDigits(n / 10, k - 1); }
  }

  function Power(k: nat): nat { if k == 0 then 1 else 10 * Power(k - 1) }

  /** A header is five characters and reads as the length. */
  lemma HeaderReads(n: nat)
    requires n <= LONGEST
    ensures |Header(n)| == HEADER && Atoi(Header(n)) == n
  {
    assert Power(1) == 10 && Power(2) == 100 && Power(3) == 1000 && Power(4) == 10000 && Power(5) == 100000;
    FiveDigits(n, 5);
    var d, sp := Dec(n), Spaces(HEADER - |Dec(n)|);
    DigitsStop(d, sp);
    ReadDec(n);
    assert (d + sp)[0] == d[0] && IsDigit(d[0]);
  }

  /** The form of a header: the length in decimal digits, without leading zeros, filled up
      to five characters with spaces. */
  lemma HeaderForm(n: nat) returns (digits: string, fill: string)
    requires n <= 99999
    ensures Header(n) == digits + fill && |digits| + |fill| == 5
    ensures (forall i | 0 <= i < |digits| :: '0' <= digits[i] <= '9') && Read(digits) == n && (|digits| > 1 ==> digits[0] != '0')
    ensures forall c <- fill :: c == ' '
  {
    HeaderReads(n);
    digits, fill := Dec(n), Spaces(5 - |Dec(n)|);
    ReadDec(n);
  }

  // ------------------------------------------------------------------ frames

  function Frame(data: string): string { Header(|data|) + data }

  function FrameAll(ms: seq<string>): string {
    if ms == [] then "" else Frame(ms[0]) + FrameAll(ms[1..])
  }

  /** The first message of a stream of bytes, and how much of it has been taken off. The
      reader in C++ takes messages of any length, the one in Python none that are empty. */
  function ReadFrame(stream: string, least: nat): (r: (Option<string>, nat))
    ensures r.1 <= |stream|
  {
    if |stream| < HEADER then (None, |stream|)
    else
      var n := Atoi(stream[..HEADER]);
      if n < least then (None, HEADER)
      else if |stream| < HEADER + n then (None, |stream|)
      else (Some(stream[HEADER..HEADER + n]), HEADER + n)
  }

  /** A framed message is read back, whatever follows it, exactly if the reader takes
      messages of its length. */
  lemma FrameReads(data: string, rest: string, least: nat)
    requires |data| <= LONGEST
    ensures ReadFrame(Frame(data) + rest, least) == if least <= |data| then (Some(data), |Frame(data)|) else (None, HEADER)
  {
    HeaderReads(|data|);
    var s := Frame(data) + rest;
    assert s[..HEADER] == Header(|data|);
    assert s[HEADER..] == data + rest;
    assert s[HEADER..HEADER + |data|] == data;
  }

  lemma NextFrame(data: string, rest: string)
    requires |data| <= LONGEST
    ensures var s := Frame(data) + rest;
            ReadFrame(s, 0).0 == Some(data) && s[ReadFrame(s, 0).1..] == rest
  {
    FrameReads(data, rest, 0);
  }

  // ----------------------------------------------------------------- sockets

  /** What one call on a socket does: it is interrupted, fails, or moves some bytes. */
  datatype Io = Interrupted | Failed | Moved(most: nat)

  predicate Working(io: seq<Io>) { forall x <- io :: !x.Failed? && (x.Moved? ==> x.most > 0) }

  function Least(a: nat, b: nat): nat { if a < b then a else b }

  /** The bytes between the two ends of a connection. */
  class Wire {
    var stream: string

    constructor ()
      ensures stream == ""
    {
      stream := "";
    }

    /** Send until all is sent; io says what each call does, the last one all it can. */
    method WriteBytes(buf: string, io: seq<Io>) returns (written: nat)
      modifies this
      ensures written <= |buf| && stream == old(stream) + buf[..written]
      ensures Working(io) ==> written == |buf|
    {
      written := 0;
      var i := 0;
      while written != |buf|
        invariant 0 <= i <= |io| && written <= |buf| && stream == old(stream) + buf[..written]
        decreases |io| - i, |buf| - written
      {
        var x := if i < |io| then io[i] else Moved(|buf| - written);
        assert i < |io| ==> io[i] in io;
        if i < |io| { i := i + 1; }
        match x {
          case Interrupted =>
          case Failed => return;
          case Moved(most) =>
            var n := Least(most, |buf| - written);
            assert buf[..written + n] == buf[..written] + buf[written..written + n];
            stream := stream + buf[written..written + n];
            written := written + n;
        }
      }
    }

    /** Receive until there is enough, or the stream ends. */
    method ReadBytes(n: nat, io: seq<Io>) returns (got: string)
      modifies this
      ensures |got| <= n && old(stream) == got + stream && stream == old(stream)[|got|..]
      ensures Working(io) ==> got == old(stream)[..Least(n, |old(stream)|)]
    {
      got := "";
      var i := 0;
      while |got| != n
        invariant 0 <= i <= |io| && |got| <= n && old(stream) == got + stream
        decreases |io| - i, n - |got|
      {
        var x := if i < |io| then io[i] else Moved(n - |got|);
        assert i < |io| ==> io[i] in io;
        if i < |io| { i := i + 1; }
        match x {
          case Interrupted =>
          case Failed => return;
          case Moved(most) =>
            if |stream| == 0 { break; }
            var k := Least(Least(most, n - |got|), |stream|);
            got, stream := got + stream[..k], stream[k..];
        }
      }
    }

    /** Send a message with its length in front. */
    method WriteMessage(data: string, io: seq<Io>, more: seq<Io>) returns (ok: bool)
      modifies this
      ensures |data| > LONGEST ==> !ok && stream == old(stream)
      ensures |data| <= LONGEST && Working(io) && Working(more) ==> ok && stream == old(stream) + Frame(data)
    {
      if |data| > LONGEST { return false; }
      HeaderReads(|data|);
      var size := Dec(|data|);
      ghost var k := 0;
      while |size| < HEADER
        invariant size == Dec(|data|) + Spaces(k) && (k > 0 ==> |size| <= HEADER)
        decreases HEADER - |size|
      {
        size := size + " ";
        k := k + 1;
      }
      assert |Dec(|data|)| <= HEADER;
      assert size == Header(|data|);
      var n := WriteBytes(size, io);
      if n != HEADER { return false; }
      assert size[..n] == size;
      n := WriteBytes(data, more);
      if n != |data| { return false; }
      assert data[..n] == data;
      ok := true;
    }

    /** Receive a message; None if there is none. */
    method ReadMessage(io: seq<Io>, more: seq<Io>) returns (data: Option<string>)
      modifies this
      ensures Working(io) && Working(more) ==>
                data == ReadFrame(old(stream), 0).0 && stream == old(stream)[ReadFrame(old(stream), 0).1..]
    {
      ghost var s := stream;
      var size := ReadBytes(HEADER, io);
      if |size| != HEADER { return None; }
      assert Working(io) ==> size == s[..HEADER] && stream == s[HEADER..];
      var n := Atoi(size);
      if n < 0 { return None; }
      var message := ReadBytes(n, more);
      if |message| != n { return None; }
      assert Working(io) && Working(more) ==> message == s[HEADER..HEADER + n] && stream == s[HEADER + n..];
      data := Some(message);
    }

    method SendAll(ms: seq<string>, cuts: seq<Io>)
      requires stream == "" && Working(cuts) && forall i | 0 <= i < |ms| :: |ms[i]| <= LONGEST
      modifies this
      ensures stream == FrameAll(ms)
    {
      for i := 0 to |ms|
        invariant stream + FrameAll(ms[i..]) == FrameAll(ms)
      {
        assert ms[i..][0] == ms[i] && ms[i..][1..] == ms[i + 1..];
        ghost var before := stream;
        var ok := WriteMessage(ms[i], cuts, cuts);
        assert before + (Frame(ms[i]) + FrameAll(ms[i + 1..])) == (before + Frame(ms[i])) + FrameAll(ms[i + 1..]);
      }
      assert FrameAll(ms[|ms|..]) == "" && stream + "" == stream;
    }

    method ReceiveAll(n: nat, cuts: seq<Io>, ghost ms: seq<string>) returns (received: seq<string>)
      requires |ms| == n && stream == FrameAll(ms) && Working(cuts) && forall i | 0 <= i < |ms| :: |ms[i]| <= LONGEST
      modifies this
      ensures received == ms && stream == ""
    {
      received := [];
      for i := 0 to n
        invariant received == ms[..i] && stream == FrameAll(ms[i..])
      {
        assert ms[i..][0] == ms[i] && ms[i..][1..] == ms[i + 1..];
        NextFrame(ms[i], FrameAll(ms[i + 1..]));
        var m := ReadMessage(cuts, cuts);
        received := received + [m.value];
      }
      assert ms[..|ms|] == ms;
    }

    /** Messages sent one after another are received as they were, however the socket
        cuts them up. */
    method Exchange(ms: seq<string>, cuts: seq<Io>) returns (received: seq<string>)
      requires stream == "" && Working(cuts) && forall i | 0 <= i < |ms| :: |ms[i]| <= LONGEST
      modifies this
      ensures received == ms && stream == ""
    {
      SendAll(ms, cuts);
      received := ReceiveAll(|ms|, cuts, ms);
    }
  }
}
