/** Packet framing of gdbstub.c: the byte-at-a-time receiver of gdb_read_byte and the sender made of
memtox and put_packet_binary.  The wire format is that of the GDB Remote Serial Protocol
("Debugging with GDB", Appendix E, section "Overview").
*/
module GdbPacket {

  type Byte = x: int | 0 <= x < 256

  const MAX_PACKET_LENGTH := 4096

  const DOLLAR: Byte := 0x24
  const HASH: Byte := 0x23
  const STAR: Byte := 0x2a
  const BRACE: Byte := 0x7d
  const PLUS: Byte := 0x2b
  const MINUS: Byte := 0x2d
  const SPACE: Byte := 0x20

  /** ch ^ 0x20 */
  function Flip(b: Byte): Byte {
    if (b / 32) % 2 == 1 then b - 32 else b + 32
  }

  /** An escaped byte has bit 5 turned over and no other. */
  lemma FlipIs(high: nat, bit: nat, low: nat)
    requires high < 4 && bit < 2 && low < 32
    ensures Flip(high * 64 + bit * 32 + low) == high * 64 + (1 - bit) * 32 + low
  {
  }

  predicate IsHexDigit(b: Byte) {
    0x30 <= b <= 0x39 || 0x41 <= b <= 0x46 || 0x61 <= b <= 0x66
  }

  function FromHex(v: Byte): (d: Byte)
    ensures d < 16
  {
    if 0x30 <= v <= 0x39 then v - 0x30
    else if 0x41 <= v <= 0x46 then v - 0x41 + 10
    else if 0x61 <= v <= 0x66 then v - 0x61 + 10
    else 0
  }

  function ToHex(v: Byte): (b: Byte)
    requires v < 16
    ensures IsHexDigit(b) && FromHex(b) == v
  {
    if v < 10 then v + 0x30 else v - 10 + 0x61
  }

  /** The upper-case form of a digit. */
  function Upper(b: Byte): Byte {
    if 'a' as int <= b <= 'f' as int then b - 'a' as int + 'A' as int else b
  }

  /** A byte is a hex digit exactly if it is the digit of its value in either case. */
  lemma EitherCase(b: Byte, v: Byte)
    requires v < 16
    ensures IsHexDigit(b) && FromHex(b) == v <==> b == ToHex(v) || b == Upper(ToHex(v))
    ensures ToHex(v) as char == "0123456789abcdef"[v] && Upper(ToHex(v)) as char == "0123456789ABCDEF"[v]
  {
  }

  // ---------------------------------------------------------------- the receiver

  datatype RSState = Idle | GetLine | GetLineEsc | GetLineRle | Chksum1 | Chksum2

  /** The parsing state; `line` is the used part of line_buf. */
  datatype Parser = Parser(state: RSState, line: seq<Byte>, sum: int, csum: int)

  /** What a byte makes the receiver do besides changing its state. */
  datatype Event =
    | Nothing
    | Nak                           // '-' sent
    | Packet(payload: seq<Byte>)    // '+' sent and the payload handed to the command parser

  function Repeated(b: Byte, n: nat): seq<Byte> {
    seq(n, _ => b)
  }

  /** One byte through the parsing part of gdb_read_byte. */
  function ReadByte(p: Parser, ch: Byte): (Parser, Event) {
    match p.state
    case Idle =>
      (if ch == DOLLAR then p.(state := GetLine, line := [], sum := 0) else p, Nothing)
    case GetLine =>
      (if ch == BRACE then p.(state := GetLineEsc, sum := p.sum + ch)
       else if ch == STAR then p.(state := GetLineRle, sum := p.sum + ch)
       else if ch == HASH then p.(state := Chksum1)
       else if |p.line| >= MAX_PACKET_LENGTH - 1 then p.(state := Idle)
       else p.(line := p.line + [ch], sum := p.sum + ch),
       Nothing)
    case GetLineEsc =>
      (if ch == HASH then p.(state := Chksum1)
       else if |p.line| >= MAX_PACKET_LENGTH - 1 then p.(state := Idle)
       else p.(state := GetLine, line := p.line + [Flip(ch)], sum := p.sum + ch),
       Nothing)
    case GetLineRle =>
      (if ch < SPACE || ch == HASH || ch == DOLLAR || ch > 126 then p.(state := GetLine)
       else if |p.line| + (ch - SPACE + 3) >= MAX_PACKET_LENGTH - 1 then p.(state := Idle)
       else if |p.line| < 1 then p.(state := GetLine)
       else p.(state := GetLine, line := p.line + Repeated(p.line[|p.line| - 1], ch - SPACE + 3), sum := p.sum + ch),
       Nothing)
    case Chksum1 =>
      (if !IsHexDigit(ch) then p.(state := GetLine) else p.(state := Chksum2, csum := FromHex(ch) * 16), Nothing)
    case Chksum2 =>
      if !IsHexDigit(ch) then (p.(state := GetLine), Nothing)
      else
        var csum := p.csum + FromHex(ch);
        var q := p.(state := Idle, csum := csum);
        if csum != p.sum % 256 then (q, Nak) else (q, Packet(p.line))
  }

  function Emit(e: Event): seq<Event> {
    if e == Nothing then [] else [e]
  }

  /** A stream of bytes through the receiver, with the events in order. */
  function Feed(p: Parser, bytes: seq<Byte>): (Parser, seq<Event>)
    decreases bytes
  {
    if bytes == [] then (p, [])
    else
      var (q, e) := ReadByte(p, bytes[0]);
      var (r, es) := Feed(q, bytes[1..]);
      (r, Emit(e) + es)
  }

  lemma {:induction false} FeedAppend(p: Parser, a: seq<Byte>, b: seq<Byte>)
    ensures var (q, es) := Feed(p, a); var (r, fs) := Feed(q, b); Feed(p, a + b) == (r, es + fs)
    decreases a
  {
    if a == [] {
      assert a + b == b;
      assert [] + Feed(p, b).1 == Feed(p, b).1;
    } else {
      assert (a + b)[1..] == a[1..] + b;
      var (q, e) := ReadByte(p, a[0]);
      FeedAppend(q, a[1..], b);
      var es, fs := Feed(q, a[1..]).1, Feed(Feed(q, a[1..]).0, b).1;
      assert Emit(e) + (es + fs) == (Emit(e) + es) + fs;
    }
  }

  lemma FeedNone(p: Parser)
    ensures Feed(p, []) == (p, [])
  {
  }

  lemma FeedOne(p: Parser, a: Byte)
    ensures Feed(p, [a]) == (ReadByte(p, a).0, Emit(ReadByte(p, a).1))
  {
    assert [a][1..] == [];
    assert Emit(ReadByte(p, a).1) + [] == Emit(ReadByte(p, a).1);
  }

  /** Two silent stretches make a silent stretch. */
  lemma FeedSilent(p: Parser, a: seq<Byte>, q: Parser, b: seq<Byte>, r: Parser)
    requires Feed(p, a) == (q, []) && Feed(q, b) == (r, [])
    ensures Feed(p, a + b) == (r, [])
  {
    FeedAppend(p, a, b);
  }

  lemma FeedTwo(p: Parser, a: Byte, b: Byte)
    ensures var (q, e) := ReadByte(p, a);
            var (r, f) := ReadByte(q, b);
            Feed(p, [a, b]) == (r, Emit(e) + Emit(f))
  {
    FeedOne(ReadByte(p, a).0, b);
    assert [a, b][1..] == [b];
  }

  /** The receiver's buffer bound; the low checksum digit is only ever added to a multiple of 16. */
  ghost predicate InBounds(p: Parser) {
    && |p.line| <= MAX_PACKET_LENGTH - 1
    && (p.state == Chksum2 ==> 0 <= p.csum <= 240 && p.csum % 16 == 0)
  }

  /** On every byte stream the buffer index stays within 4095, so that the terminating zero fits,
      and no packet longer than that is ever delivered. */
  lemma {:induction false} NeverOverruns(p: Parser, bytes: seq<Byte>)
    requires InBounds(p)
    ensures InBounds(Feed(p, bytes).0)
    ensures forall e :: e in Feed(p, bytes).1 && e.Packet? ==> |e.payload| <= MAX_PACKET_LENGTH - 1
    decreases bytes
  {
    if bytes != [] {
      NeverOverruns(ReadByte(p, bytes[0]).0, bytes[1..]);
    }
  }

  lemma FeedTwoSilent(p: Parser, a: Byte, q: Parser, b: Byte, r: Parser)
    requires ReadByte(p, a) == (q, Nothing) && ReadByte(q, b) == (r, Nothing)
    ensures Feed(p, [a, b]) == (r, [])
  {
    FeedTwo(p, a, b);
    assert Emit(Nothing) + Emit(Nothing) == [];
  }

  // ---------------------------------------------------------------- the wire format

  /** A packet body as the protocol describes it: plain bytes, escaped bytes and repeats of the
      previous byte. */
  datatype AnyToken = Plain(b: Byte) | Escaped(b: Byte) | Repeat(n: nat)

  predicate ValidToken(t: AnyToken) {
    match t
    case Plain(b) => b != HASH && b != STAR && b != BRACE
    case Escaped(b) => Flip(b) != HASH
    case Repeat(n) => 3 <= n && n + 29 <= 126 && n + 29 != HASH && n + 29 != DOLLAR
  }

  type Token = t: AnyToken | ValidToken(t) witness Plain(0)

  function WireToken(t: Token): seq<Byte> {
    match t
    case Plain(b) => [b]
    case Escaped(b) => [BRACE, Flip(b)]
    case Repeat(n) => [STAR, n + 29]
  }

  function Wire(ts: seq<Token>): seq<Byte> {
    if ts == [] then [] else Wire(ts[..|ts| - 1]) + WireToken(ts[|ts| - 1])
  }

  /** The line after one more token; a repeat with nothing before it stands for nothing. */
  function ExpandWith(line: seq<Byte>, t: Token): seq<Byte> {
    match t
    case Plain(b) => line + [b]
    case Escaped(b) => line + [b]
    case Repeat(n) => if line == [] then [] else line + Repeated(line[|line| - 1], n)
  }

  /** Does the token find room?  Single bytes may fill the buffer up to 4095 bytes, but a repeat
      has to leave one byte free. */
  predicate FitsWith(line: seq<Byte>, t: Token) {
    match t
    case Plain(_) => |line| < MAX_PACKET_LENGTH - 1
    case Escaped(_) => |line| < MAX_PACKET_LENGTH - 1
    case Repeat(n) => |line| >= 1 && |line| + n < MAX_PACKET_LENGTH - 1
  }

  /** The bytes the tokens stand for. */
  function Expand(ts: seq<Token>): seq<Byte> {
    if ts == [] then [] else ExpandWith(Expand(ts[..|ts| - 1]), ts[|ts| - 1])
  }

  predicate Fits(ts: seq<Token>) {
    ts == [] || (Fits(ts[..|ts| - 1]) && FitsWith(Expand(ts[..|ts| - 1]), ts[|ts| - 1]))
  }

  function Sum(bytes: seq<Byte>): int {
    if bytes == [] then 0 else Sum(bytes[..|bytes| - 1]) + bytes[|bytes| - 1]
  }

  lemma {:induction false} SumAppend(a: seq<Byte>, b: seq<Byte>)
    ensures Sum(a + b) == Sum(a) + Sum(b)
  {
    if b == [] {
      assert a + b == a;
    } else {
      assert (a + b)[..|a + b| - 1] == a + b[..|b| - 1];
      SumAppend(a, b[..|b| - 1]);
    }
  }

  lemma FlipTwice(b: Byte)
    ensures Flip(Flip(b)) == b
  {
  }

  lemma SumOne(a: Byte)
    ensures Sum([a]) == a
  {
    assert [a][..0] == [];
  }

  lemma SumTwo(a: Byte, b: Byte)
    ensures Sum([a, b]) == a + b
  {
    SumOne(a);
    assert [a, b][..1] == [a];
  }

  /** One token takes the receiver from the expansion of what came before to the expansion with it. */
  lemma TokenStep(p: Parser, t: Token)
    requires p.state == GetLine && FitsWith(p.line, t)
    ensures Feed(p, WireToken(t)) == (p.(line := ExpandWith(p.line, t), sum := p.sum + Sum(WireToken(t))), [])
  {
    hide Feed, Sum;
    match t
    case Plain(b) =>
      FeedOne(p, b);
      SumOne(b);
    case Escaped(b) =>
      FlipTwice(b);
      SumTwo(BRACE, Flip(b));
      FeedTwoSilent(p, BRACE, p.(state := GetLineEsc, sum := p.sum + BRACE), Flip(b),
                    p.(line := p.line + [b], sum := p.sum + BRACE + Flip(b)));
    case Repeat(n) =>
      SumTwo(STAR, n + 29);
      FeedTwoSilent(p, STAR, p.(state := GetLineRle, sum := p.sum + STAR), n + 29,
                    p.(line := ExpandWith(p.line, t), sum := p.sum + STAR + (n + 29)));
  }

  lemma LastToken(ts: seq<Token>)
    requires Fits(ts)
    ensures if ts == [] then Wire(ts) == [] && Expand(ts) == [] && Sum(Wire(ts)) == 0
            else
              var ts', t := ts[..|ts| - 1], ts[|ts| - 1];
              Wire(ts) == Wire(ts') + WireToken(t) && Expand(ts) == ExpandWith(Expand(ts'), t) && Fits(ts') && FitsWith(Expand(ts'), t)
  {
  }

  /** The receiver decodes every token sequence that fits exactly as the protocol says. */
  lemma {:induction false} DecodesBody(p: Parser, ts: seq<Token>)
    requires Fits(ts)
    requires p.state == GetLine && p.line == [] && p.sum == 0
    ensures Feed(p, Wire(ts)) == (p.(line := Expand(ts), sum := Sum(Wire(ts))), [])
  {
    hide Feed, Wire, Expand, Fits, FitsWith, ExpandWith, WireToken, Sum, ReadByte;
    LastToken(ts);
    if ts == [] {
      FeedNone(p);
    } else {
      var ts', t := ts[..|ts| - 1], ts[|ts| - 1];
      DecodesBody(p, ts');
      var q := p.(line := Expand(ts'), sum := Sum(Wire(ts')));
      TokenStep(q, t);
      SumAppend(Wire(ts'), WireToken(t));
      FeedSilent(p, Wire(ts'), q, WireToken(t), p.(line := Expand(ts), sum := Sum(Wire(ts))));
    }
  }

  /** The whole packet with any two checksum digits: it is acknowledged and delivered as the
      protocol says if the digits are the sum of the body bytes modulo 256, in either letter case,
      and refused otherwise; either way the receiver is idle again. */
  lemma DecodesPacket(p: Parser, ts: seq<Token>, hi: Byte, lo: Byte)
    requires p.state == Idle && Fits(ts) && IsHexDigit(hi) && IsHexDigit(lo)
    ensures var (q, es) := Feed(p, [DOLLAR] + Wire(ts) + [HASH] + [hi, lo]);
            && q.state == Idle
            && es == [if FromHex(hi) * 16 + FromHex(lo) == Sum(Wire(ts)) % 256 then Packet(Expand(ts)) else Nak]
  {
    hide Feed, Wire, Sum, Expand, Fits;
    var p1 := p.(state := GetLine, line := [], sum := 0);
    FeedOne(p, DOLLAR);
    DecodesBody(p1, ts);
    var p2 := p1.(line := Expand(ts), sum := Sum(Wire(ts)));
    FeedSilent(p, [DOLLAR], p1, Wire(ts), p2);
    FeedOne(p2, HASH);
    FeedSilent(p, [DOLLAR] + Wire(ts), p2, [HASH], p2.(state := Chksum1));
    ChecksumStep(p2.(state := Chksum1), hi, lo);
    FeedAppend(p, [DOLLAR] + Wire(ts) + [HASH], [hi, lo]);
  }

  /** The two digits decide. */
  lemma ChecksumStep(p: Parser, hi: Byte, lo: Byte)
    requires p.state == Chksum1 && IsHexDigit(hi) && IsHexDigit(lo)
    ensures var (q, es) := Feed(p, [hi, lo]);
            && q.state == Idle
            && [] + es == [if FromHex(hi) * 16 + FromHex(lo) == p.sum % 256 then Packet(p.line) else Nak]
  {
    hide Feed;
    FeedTwo(p, hi, lo);
  }

  /** A token that finds no room makes the receiver give up the packet. */
  lemma TokenOverflows(p: Parser, t: Token)
    requires p.state == GetLine && !FitsWith(p.line, t) && (t.Repeat? ==> |p.line| >= 1)
    ensures Feed(p, WireToken(t)).0.state == Idle && Feed(p, WireToken(t)).1 == []
  {
    hide Feed;
    match t
    case Plain(b) =>
      FeedOne(p, b);
    case Escaped(b) =>
      FlipTwice(b);
      var q := p.(state := GetLineEsc, sum := p.sum + BRACE);
      FeedTwoSilent(p, BRACE, q, Flip(b), q.(state := Idle));
    case Repeat(n) =>
      var q := p.(state := GetLineRle, sum := p.sum + STAR);
      FeedTwoSilent(p, STAR, q, n + 29, q.(state := Idle));
  }

  /** An idle receiver waits for the next packet to begin. */
  lemma {:induction false} IdleIgnores(p: Parser, bytes: seq<Byte>)
    requires p.state == Idle && DOLLAR !in bytes
    ensures Feed(p, bytes) == (p, [])
    decreases bytes
  {
    if bytes != [] {
      assert bytes[0] in bytes;
      IdleIgnores(p, bytes[1..]);
      assert Emit(Nothing) + [] == [];
    }
  }

  lemma FeedIdle(p: Parser, a: seq<Byte>, b: seq<Byte>)
    requires Feed(p, a).0.state == Idle && Feed(p, a).1 == [] && DOLLAR !in b
    ensures Feed(p, a + b) == Feed(p, a)
  {
    var q := Feed(p, a).0;
    IdleIgnores(q, b);
    FeedSilent(p, a, q, b, q);
  }

  /** A body that does not fit is given up, and the rest of it is ignored. */
  lemma {:induction false} BodyOverflows(p: Parser, ts: seq<Token>)
    requires !Fits(ts) && !ts[0].Repeat? && DOLLAR !in Wire(ts)
    requires p.state == GetLine && p.line == [] && p.sum == 0
    ensures Feed(p, Wire(ts)).0.state == Idle && Feed(p, Wire(ts)).1 == []
  {
    hide Feed;
    var ts', t := ts[..|ts| - 1], ts[|ts| - 1];
    if Fits(ts') {
      DecodesBody(p, ts');
      var q := p.(line := Expand(ts'), sum := Sum(Wire(ts')));
      TokenOverflows(q, t);
      FeedSilent(p, Wire(ts'), q, WireToken(t), Feed(q, WireToken(t)).0);
    } else {
      BodyOverflows(p, ts');
      FeedIdle(p, Wire(ts'), WireToken(t));
    }
  }

  /** A packet is delivered as the protocol says, given its right digits, exactly if it fits; one that
      does not fit gets no answer at all, whatever its digits.  (A body that begins with a repeat stands
      for nothing in the protocol, and a dollar sign begins a new packet.) */
  lemma DeliveredIfFits(p: Parser, ts: seq<Token>, hi: Byte, lo: Byte)
    requires p.state == Idle && IsHexDigit(hi) && IsHexDigit(lo)
    requires (ts != [] ==> !ts[0].Repeat?) && DOLLAR !in Wire(ts)
    ensures var (q, es) := Feed(p, [DOLLAR] + Wire(ts) + [HASH] + [hi, lo]);
            && q.state == Idle
            && (FromHex(hi) * 16 + FromHex(lo) == Sum(Wire(ts)) % 256 ==> (Packet(Expand(ts)) in es <==> Fits(ts)))
            && (!Fits(ts) ==> es == [])
  {
    hide Feed;
    if Fits(ts) {
      DecodesPacket(p, ts, hi, lo);
    } else {
      var p1 := p.(state := GetLine, line := [], sum := 0);
      FeedOne(p, DOLLAR);
      BodyOverflows(p1, ts);
      FeedSilent(p, [DOLLAR], p1, Wire(ts), Feed(p1, Wire(ts)).0);
      FeedIdle(p, [DOLLAR] + Wire(ts), [HASH]);
      FeedIdle(p, [DOLLAR] + Wire(ts) + [HASH], [hi, lo]);
    }
  }

  /** A repeat may not fill the buffer to its last byte: a packet that ends in a repeat up to 4095 bytes
      or more gets no answer, whatever its digits, although the same bytes sent singly are delivered. */
  lemma RepeatCannotFill(p: Parser, ts: seq<Token>, r: Token, hi: Byte, lo: Byte)
    requires p.state == Idle && IsHexDigit(hi) && IsHexDigit(lo)
    requires Fits(ts) && r.Repeat? && |Expand(ts)| + r.n >= MAX_PACKET_LENGTH - 1
    ensures var (q, es) := Feed(p, [DOLLAR] + Wire(ts) + WireToken(r) + [HASH] + [hi, lo]);
            q.state == Idle && es == []
  {
    hide Feed;
    var p1 := p.(state := GetLine, line := [], sum := 0);
    FeedOne(p, DOLLAR);
    DecodesBody(p1, ts);
    var p2 := p1.(line := Expand(ts), sum := Sum(Wire(ts)));
    FeedSilent(p, [DOLLAR], p1, Wire(ts), p2);
    TokenOverflows(p2, r);
    FeedSilent(p, [DOLLAR] + Wire(ts), p2, WireToken(r), Feed(p2, WireToken(r)).0);
    FeedIdle(p, [DOLLAR] + Wire(ts) + WireToken(r), [HASH]);
    FeedIdle(p, [DOLLAR] + Wire(ts) + WireToken(r) + [HASH], [hi, lo]);
  }

  // ---------------------------------------------------------------- the sender

  predicate MustEscape(b: Byte) {
    b == HASH || b == DOLLAR || b == STAR || b == BRACE
  }

  /** The bytes memtox appends. */
  function EscapeBytes(mem: seq<Byte>): seq<Byte> {
    if mem == [] then []
    else EscapeBytes(mem[..|mem| - 1]) + EscapeByte(mem[|mem| - 1])
  }

  function EscapeByte(b: Byte): seq<Byte> {
    if MustEscape(b) then [BRACE, Flip(b)] else [b]
  }

  /** memtox: escape the four special bytes, append the others. */
  method Memtox(buf: seq<Byte>, mem: seq<Byte>) returns (out: seq<Byte>)
    ensures out == buf + EscapeBytes(mem)
  {
    out := buf;
    var i := 0;
    while i < |mem|
      invariant 0 <= i <= |mem|
      invariant out == buf + EscapeBytes(mem[..i])
    {
      var c := mem[i];
      ghost var before := out;
      if MustEscape(c) {
        out := out + [BRACE];
        out := out + [Flip(c)];
      } else {
        out := out + [c];
      }
      assert out == before + EscapeByte(c);
      assert mem[..i + 1][..i] == mem[..i];
      i := i + 1;
    }
    assert mem[..i] == mem;
  }

  lemma {:induction false} EscapeBytesIsWire(mem: seq<Byte>)
    ensures EscapeBytes(mem) == Wire(EscapeTokens(mem))
  {
    if mem != [] {
      var m, b := mem[..|mem| - 1], mem[|mem| - 1];
      EscapeBytesIsWire(m);
      EscapeTokensSnoc(m, b);
      assert m + [b] == mem;
    }
  }

  function EscapeToken(b: Byte): Token {
    if MustEscape(b) then Escaped(b) else Plain(b)
  }

  function EscapeTokens(mem: seq<Byte>): (ts: seq<Token>)
    ensures |ts| == |mem|
  {
    seq(|mem|, i requires 0 <= i < |mem| => EscapeToken(mem[i]))
  }

  lemma EscapeTokensSnoc(mem: seq<Byte>, b: Byte)
    ensures EscapeTokens(mem + [b]) == EscapeTokens(mem) + [EscapeToken(b)]
    ensures Wire(EscapeTokens(mem + [b])) == Wire(EscapeTokens(mem)) + WireToken(EscapeToken(b))
  {
    var ts := EscapeTokens(mem + [b]);
    assert ts == EscapeTokens(mem) + [EscapeToken(b)];
    assert ts[..|ts| - 1] == EscapeTokens(mem);
  }

  /** Escaping is undone by expansion, and it fits the receiver exactly up to 4095 bytes. */
  lemma {:induction false} EscapeExpands(mem: seq<Byte>)
    ensures Expand(EscapeTokens(mem)) == mem
    ensures Fits(EscapeTokens(mem)) <==> |mem| <= MAX_PACKET_LENGTH - 1
  {
    if mem != [] {
      var m := mem[..|mem| - 1];
      EscapeExpands(m);
      assert m + [mem[|mem| - 1]] == mem;
      EscapeTokensSnoc(m, mem[|mem| - 1]);
      var ts := EscapeTokens(mem);
      assert ts[..|ts| - 1] == EscapeTokens(m);
    }
  }

  /** The value of a byte read through C's signed char. */
  function Signed(b: Byte): int {
    if b < 128 then b else b - 256
  }

  function SignedSum(bytes: seq<Byte>): int {
    if bytes == [] then 0 else SignedSum(bytes[..|bytes| - 1]) + Signed(bytes[|bytes| - 1])
  }

  /** The sender adds signed chars and the receiver unsigned bytes: the checksums agree. */
  lemma SignedSumAgrees(bytes: seq<Byte>)
    ensures SignedSum(bytes) % 256 == Sum(bytes) % 256
  {
    var k := SignedSumDiffers(bytes);
  }

  lemma {:induction false} SignedSumDiffers(bytes: seq<Byte>) returns (k: nat)
    ensures Sum(bytes) == SignedSum(bytes) + 256 * k
  {
    k := 0;
    if bytes != [] {
      k := SignedSumDiffers(bytes[..|bytes| - 1]);
      if Signed(bytes[|bytes| - 1]) != bytes[|bytes| - 1] {
        k := k + 1;
      }
    }
  }

  /** (csum >> 4) & 0xf and csum & 0xf are the digits of csum modulo 256, also for negative csum. */
  lemma Nibbles(csum: int)
    ensures (csum / 16) % 16 * 16 + csum % 16 == csum % 256
  {
  }

  /** put_packet_binary: the frame around a body. */
  method PutPacketBinary(buf: seq<Byte>) returns (packet: seq<Byte>)
    ensures packet == Frame(buf)
  {
    packet := [DOLLAR];
    packet := packet + buf;
    var csum := 0;
    var i := 0;
    while i < |buf|
      invariant 0 <= i <= |buf|
      invariant csum == SignedSum(buf[..i])
    {
      assert buf[..i + 1][..i] == buf[..i];
      csum := csum + Signed(buf[i]);
      i := i + 1;
    }
    assert buf[..i] == buf;
    packet := packet + [HASH, ToHex((csum / 16) % 16), ToHex(csum % 16)];
    SignedSumAgrees(buf);
    Nibbles(csum);
    Nibbles(Sum(buf));
    assert packet == [DOLLAR] + buf + [HASH] + [ToHex((csum / 16) % 16), ToHex(csum % 16)];
  }

  function Frame(body: seq<Byte>): seq<Byte> {
    [DOLLAR] + body + [HASH] + [ToHex(Sum(body) / 16 % 16), ToHex(Sum(body) % 16)]
  }

  lemma {:induction false} EscapedHasNoDollar(mem: seq<Byte>)
    ensures DOLLAR !in EscapeBytes(mem)
  {
    if mem != [] {
      EscapedHasNoDollar(mem[..|mem| - 1]);
    }
  }

  /** Round trip: the frame around the escaped payload makes an idle receiver acknowledge and deliver
      exactly that payload, if it has at most 4095 bytes; a longer payload gets no answer. */
  lemma RoundTrip(p: Parser, payload: seq<Byte>)
    requires p.state == Idle
    ensures Feed(p, Frame(EscapeBytes(payload))).0.state == Idle
    ensures Feed(p, Frame(EscapeBytes(payload))).1 == if |payload| <= 4095 then [Packet(payload)] else []
  {
    var ts := EscapeTokens(payload);
    EscapeBytesIsWire(payload);
    EscapeExpands(payload);
    EscapedHasNoDollar(payload);
    var sum := Sum(Wire(ts));
    Nibbles(sum);
    if |payload| <= MAX_PACKET_LENGTH - 1 {
      DecodesPacket(p, ts, ToHex(sum / 16 % 16), ToHex(sum % 16));
    } else {
      DeliveredIfFits(p, ts, ToHex(sum / 16 % 16), ToHex(sum % 16));
    }
  }

  // ---------------------------------------------------------------- malformed packets

  /** A '#' that no two hex digits follow is no end: what came instead of a digit is dropped with it, and
      the packet goes on. */
  lemma FalseEnd(p: Parser, digit: Byte, other: Byte)
    requires p.state == GetLine && IsHexDigit(digit) && !IsHexDigit(other)
    ensures Feed(p, [HASH, other]) == (p, [])
    ensures Feed(p, [HASH, digit, other]) == (p.(csum := FromHex(digit) * 16), [])
  {
    hide Feed;
    FeedTwoSilent(p, HASH, p.(state := Chksum1), other, p);
    var p1 := p.(state := Chksum2, csum := FromHex(digit) * 16);
    FeedTwoSilent(p, HASH, p.(state := Chksum1), digit, p1);
    FeedOne(p1, other);
    FeedSilent(p, [HASH, digit], p1, [other], p.(csum := FromHex(digit) * 16));
    assert [HASH, digit] + [other] == [HASH, digit, other];
  }

  /** A repeat count that is none, or a repeat of nothing, adds no byte to the packet; only the '*' goes
      into the sum. */
  lemma FalseRepeat(p: Parser, count: Byte)
    requires p.state == GetLine
    requires count < 32 || count > 126 || count == HASH || count == DOLLAR || p.line == []
    ensures Feed(p, [STAR, count]) == (p.(sum := p.sum + STAR), [])
  {
    hide Feed;
    FeedTwoSilent(p, STAR, p.(state := GetLineRle, sum := p.sum + STAR), count, p.(sum := p.sum + STAR));
  }

  /** An escape with nothing after it ends with the packet. */
  lemma LoneEscape(p: Parser)
    requires p.state == GetLine
    ensures Feed(p, [BRACE, HASH]) == (p.(state := Chksum1, sum := p.sum + BRACE), [])
  {
    hide Feed;
    FeedTwoSilent(p, BRACE, p.(state := GetLineEsc, sum := p.sum + BRACE), HASH, p.(state := Chksum1, sum := p.sum + BRACE));
  }

  // ---------------------------------------------------------------- the whole of gdb_read_byte

  /** A connection: the parser, the reply that waits for its acknowledgement, whether the machine
      runs, everything written to the wire and every payload handed to the command parser. */
  datatype Session = Session(
    parser: Parser, lastPacket: seq<Byte>, running: bool, sent: seq<Byte>, delivered: seq<seq<Byte>>)

  function Receive(s: Session, ch: Byte): Session {
    if s.lastPacket != [] && ch != DOLLAR then
      s.(sent := if ch == MINUS then s.sent + s.lastPacket else s.sent,
         lastPacket := if ch == PLUS then [] else s.lastPacket)
    else if s.running then
      s.(lastPacket := [], running := false)
    else
      var (q, e) := ReadByte(s.parser, ch);
      match e
      case Nothing => s.(lastPacket := [], parser := q)
      case Nak => s.(lastPacket := [], parser := q, sent := s.sent + [MINUS])
      case Packet(payload) =>
        s.(lastPacket := [], parser := q, sent := s.sent + [PLUS], delivered := s.delivered + [payload])
  }

  function ReceiveAll(s: Session, bytes: seq<Byte>): Session
    decreases bytes
  {
    if bytes == [] then s else ReceiveAll(Receive(s, bytes[0]), bytes[1..])
  }

  function Copies(packet: seq<Byte>, k: nat): seq<Byte> {
    if k == 0 then [] else packet + Copies(packet, k - 1)
  }

  /** A reply is retransmitted once for every negative acknowledgement until the positive one comes,
      and nothing of this reaches the parser. */
  lemma {:induction false} Retransmits(s: Session, k: nat)
    requires s.lastPacket != []
    ensures ReceiveAll(s, Repeated(MINUS, k) + [PLUS]) ==
            s.(lastPacket := [], sent := s.sent + Copies(s.lastPacket, k))
    decreases k
  {
    var bytes := Repeated(MINUS, k) + [PLUS];
    if k == 0 {
      assert bytes == [PLUS] && bytes[1..] == [];
      assert s.sent + [] == s.sent;
    } else {
      assert bytes[0] == MINUS && bytes[1..] == Repeated(MINUS, k - 1) + [PLUS];
      var s' := s.(sent := s.sent + s.lastPacket);
      Retransmits(s', k - 1);
      assert s'.sent + Copies(s.lastPacket, k - 1) == s.sent + Copies(s.lastPacket, k);
    }
  }

  /** How many of the bytes are negative acknowledgements. */
  function Refusals(bytes: seq<Byte>): nat {
    if bytes == [] then 0 else (if bytes[0] == MINUS then 1 else 0) + Refusals(bytes[1..])
  }

  /** While a reply is outstanding, whatever comes but an acknowledgement or a new packet changes nothing,
      whether the machine runs or not, except that the reply is sent again for each refusal. */
  lemma {:induction false} Outstanding(s: Session, bytes: seq<Byte>)
    requires s.lastPacket != [] && PLUS !in bytes && DOLLAR !in bytes
    ensures ReceiveAll(s, bytes) == s.(sent := s.sent + Copies(s.lastPacket, Refusals(bytes)))
    decreases bytes
  {
    if bytes == [] {
      assert s.sent + [] == s.sent;
    } else {
      assert bytes[0] in bytes && forall b :: b in bytes[1..] ==> b in bytes;
      var s' := Receive(s, bytes[0]);
      Outstanding(s', bytes[1..]);
      if bytes[0] == MINUS {
        Regroup(s.sent, s.lastPacket, Copies(s.lastPacket, Refusals(bytes[1..])));
      }
    }
  }

  /** A packet that comes while a reply is outstanding abandons the reply and is taken like any other. */
  lemma Abandons(s: Session, bytes: seq<Byte>)
    ensures ReceiveAll(s, [DOLLAR] + bytes) == ReceiveAll(s.(lastPacket := []), [DOLLAR] + bytes)
  {
    assert ([DOLLAR] + bytes)[1..] == bytes;
  }

  /** While the machine runs and no reply is outstanding, any byte stops it and is lost; what follows is
      taken as in a stopped session. */
  lemma StopsMachine(s: Session, ch: Byte, bytes: seq<Byte>)
    requires s.running && (s.lastPacket == [] || ch == DOLLAR)
    ensures ReceiveAll(s, [ch] + bytes) == ReceiveAll(s.(lastPacket := [], running := false), bytes)
  {
    assert ([ch] + bytes)[1..] == bytes;
  }

  lemma QuietStep(s: Session, ch: Byte)
    requires s.lastPacket == [] && !s.running
    ensures var s' := Receive(s, ch);
            var (q, e) := ReadByte(s.parser, ch);
            && s'.parser == q && s'.lastPacket == [] && !s'.running
            && s'.delivered == s.delivered + Payloads(Emit(e)) && s'.sent == s.sent + Answers(Emit(e))
  {
    hide ReadByte;
    var (q, e) := ReadByte(s.parser, ch);
    assert e.Packet? ==> Payloads([e]) == [e.payload] && Answers([e]) == [PLUS] by { assert [e][1..] == []; }
    assert e.Nak? ==> Payloads([e]) == [] && Answers([e]) == [MINUS] by { assert [e][1..] == []; }
  }

  /** With the machine stopped and no reply outstanding, a session is its parser: it delivers the
      payloads of exactly the packets its parser accepts, in order, and what it sends is one
      acknowledgement for each packet accepted or refused. */
  lemma {:induction false} QuietSession(s: Session, bytes: seq<Byte>)
    requires s.lastPacket == [] && !s.running
    ensures var s' := ReceiveAll(s, bytes);
            var (q, es) := Feed(s.parser, bytes);
            && s'.parser == q && s'.lastPacket == [] && !s'.running
            && s'.delivered == s.delivered + Payloads(es) && s'.sent == s.sent + Answers(es)
    decreases bytes
  {
    hide Receive, ReadByte, Payloads, Answers;
    if bytes == [] {
      NoAnswers();
    } else {
      var (q, e) := ReadByte(s.parser, bytes[0]);
      QuietStep(s, bytes[0]);
      QuietSession(Receive(s, bytes[0]), bytes[1..]);
      PayloadsAppend(Emit(e), Feed(q, bytes[1..]).1);
      AnswersAppend(Emit(e), Feed(q, bytes[1..]).1);
      hide Emit;
      Regroup(s.delivered, Payloads(Emit(e)), Payloads(Feed(q, bytes[1..]).1));
      Regroup(s.sent, Answers(Emit(e)), Answers(Feed(q, bytes[1..]).1));
    }
  }

  /** End to end: a stopped session with no reply outstanding that reads the frame of an escaped payload
      hands over the payload and sends one '+', if it has at most 4095 bytes; it ends as it began. */
  lemma SessionRoundTrip(s: Session, payload: seq<Byte>)
    requires s.parser.state == Idle && s.lastPacket == [] && !s.running && |payload| <= 4095
    ensures var s' := ReceiveAll(s, Frame(EscapeBytes(payload)));
            && s'.delivered == s.delivered + [payload] && s'.sent == s.sent + ['+' as int]
            && s'.parser.state == Idle && s'.lastPacket == [] && !s'.running
  {
    hide Feed, Frame, EscapeBytes, Receive, ReceiveAll;
    QuietSession(s, Frame(EscapeBytes(payload)));
    RoundTrip(s.parser, payload);
    assert [Packet(payload)][1..] == [];
  }

  /** One with another checksum is answered by '-' and hands over nothing. */
  lemma SessionRefuses(s: Session, ts: seq<Token>, hi: Byte, lo: Byte)
    requires s.parser.state == Idle && s.lastPacket == [] && !s.running && Fits(ts) && IsHexDigit(hi) && IsHexDigit(lo)
    requires FromHex(hi) * 16 + FromHex(lo) != Sum(Wire(ts)) % 256
    ensures var s' := ReceiveAll(s, [DOLLAR] + Wire(ts) + [HASH] + [hi, lo]);
            && s'.delivered == s.delivered && s'.sent == s.sent + ['-' as int]
            && s'.parser.state == Idle && s'.lastPacket == [] && !s'.running
  {
    hide Feed, Wire, Sum, Fits, Receive, ReceiveAll;
    QuietSession(s, [DOLLAR] + Wire(ts) + [HASH] + [hi, lo]);
    DecodesPacket(s.parser, ts, hi, lo);
    assert [Nak][1..] == [];
  }

  lemma Regroup<T>(a: seq<T>, b: seq<T>, c: seq<T>)
    ensures (a + b) + c == a + (b + c)
  {
  }

  lemma NoAnswers()
    ensures Payloads([]) == [] && Answers([]) == []
  {
  }

  function Payloads(es: seq<Event>): seq<seq<Byte>> {
    if es == [] then []
    else (if es[0].Packet? then [es[0].payload] else []) + Payloads(es[1..])
  }

  /** The acknowledgements on the wire. */
  function Answers(es: seq<Event>): seq<Byte> {
    if es == [] then []
    else (match es[0] case Nothing => [] case Nak => [MINUS] case Packet(_) => [PLUS]) + Answers(es[1..])
  }

  lemma PayloadsAppend(a: seq<Event>, b: seq<Event>)
    requires |a| <= 1
    ensures Payloads(a + b) == Payloads(a) + Payloads(b)
  {
    if a == [] {
      assert a + b == b;
    } else {
      assert (a + b)[1..] == b && a[1..] == [];
    }
  }

  lemma AnswersAppend(a: seq<Event>, b: seq<Event>)
    requires |a| <= 1
    ensures Answers(a + b) == Answers(a) + Answers(b)
  {
    if a == [] {
      assert a + b == b;
    } else {
      assert (a + b)[1..] == b && a[1..] == [];
    }
  }

  class GdbServer {
    var state: RSState
    const lineBuf: array<Byte>
    var lineBufIndex: nat
    var lineSum: int
    var lineCsum: int
    var lastPacket: seq<Byte>
    var running: bool
    var sent: seq<Byte>
    var delivered: seq<seq<Byte>>

    constructor ()
      ensures Valid() && fresh(lineBuf)
      ensures View() == Session(Parser(Idle, [], 0, 0), [], false, [], [])
    {
      state, lineBufIndex, lineSum, lineCsum := Idle, 0, 0, 0;
      lineBuf := new Byte[MAX_PACKET_LENGTH](_ => 0);
      lastPacket, running, sent, delivered := [], false, [], [];
    }

    ghost predicate Valid()
      reads this, lineBuf
    {
      && lineBuf.Length == MAX_PACKET_LENGTH
      && lineBufIndex < MAX_PACKET_LENGTH
      && InBounds(View().parser)
    }

    ghost function View(): Session
      requires lineBufIndex <= lineBuf.Length
      reads this, lineBuf
    {
      Session(Parser(state, lineBuf[..lineBufIndex], lineSum, lineCsum), lastPacket, running, sent, delivered)
    }

    method PutBuffer(buf: seq<Byte>)
      modifies this`sent
      ensures sent == old(sent) + buf
    {
      sent := sent + buf;
    }

    /** gdb_read_byte */
    method ReadByte(ch: Byte)
      requires Valid()
      modifies this, lineBuf
      ensures Valid()
      ensures View() == Receive(old(View()), ch)
    {
      if |lastPacket| != 0 {
        if ch == MINUS {
          PutBuffer(lastPacket);
        }
        if ch == PLUS || ch == DOLLAR {
          lastPacket := [];
        }
        if ch != DOLLAR {
          return;
        }
      }
      if running {
        running := false;
      } else {
        ParseByte(ch);
      }
    }

    method ParseByte(ch: Byte)
      requires Valid() && !running && lastPacket == []
      modifies this, lineBuf
      ensures Valid()
      ensures View() == Receive(old(View()), ch)
    {
      match state
      case Idle =>
        if ch == DOLLAR {
          lineBufIndex, lineSum, state := 0, 0, GetLine;
        }
      case GetLine =>
        if ch == BRACE {
          state, lineSum := GetLineEsc, lineSum + ch;
        } else if ch == STAR {
          state, lineSum := GetLineRle, lineSum + ch;
        } else if ch == HASH {
          state := Chksum1;
        } else if lineBufIndex >= lineBuf.Length - 1 {
          state := Idle;
        } else {
          Append(ch);
          lineSum := lineSum + ch;
        }
      case GetLineEsc =>
        if ch == HASH {
          state := Chksum1;
        } else if lineBufIndex >= lineBuf.Length - 1 {
          state := Idle;
        } else {
          Append(Flip(ch));
          lineSum, state := lineSum + ch, GetLine;
        }
      case GetLineRle =>
        ParseRepeat(ch);
      case Chksum1 | Chksum2 =>
        ParseChecksum(ch);
    }

    method Append(b: Byte)
      requires Valid() && lineBufIndex < lineBuf.Length - 1
      modifies this`lineBufIndex, lineBuf
      ensures Valid()
      ensures lineBuf[..lineBufIndex] == old(lineBuf[..lineBufIndex]) + [b]
    {
      lineBuf[lineBufIndex] := b;
      lineBufIndex := lineBufIndex + 1;
    }

    method ParseRepeat(ch: Byte)
      requires Valid() && state == GetLineRle && !running && lastPacket == []
      modifies this, lineBuf
      ensures Valid()
      ensures View() == Receive(old(View()), ch)
    {
      if ch < SPACE || ch == HASH || ch == DOLLAR || ch > 126 {
        state := GetLine;
      } else {
        var repeat := ch - SPACE + 3;
        if lineBufIndex + repeat >= lineBuf.Length - 1 {
          state := Idle;
        } else if lineBufIndex < 1 {
          state := GetLine;
        } else {
          var last := lineBuf[lineBufIndex - 1];
          var i := 0;
          while i < repeat
            modifies lineBuf
            invariant 0 <= i <= repeat
            invariant lineBuf[..lineBufIndex + i] == old(lineBuf[..lineBufIndex]) + Repeated(last, i)
          {
            lineBuf[lineBufIndex + i] := last;
            i := i + 1;
          }
          lineBufIndex, lineSum, state := lineBufIndex + repeat, lineSum + ch, GetLine;
        }
      }
    }

    method ParseChecksum(ch: Byte)
      requires Valid() && (state == Chksum1 || state == Chksum2) && !running && lastPacket == []
      modifies this, lineBuf
      ensures Valid()
      ensures View() == Receive(old(View()), ch)
    {
      if !IsHexDigit(ch) {
        state := GetLine;
      } else if state == Chksum1 {
        lineBuf[lineBufIndex] := 0;
        lineCsum, state := FromHex(ch) * 16, Chksum2;
        assert lineBuf[..lineBufIndex] == old(lineBuf[..lineBufIndex]);
      } else {
        // the low digit is or-ed into four zero bits
        lineCsum := lineCsum + FromHex(ch);
        if lineCsum != lineSum % 256 {
          PutBuffer([MINUS]);
        } else {
          PutBuffer([PLUS]);
          delivered := delivered + [lineBuf[..lineBufIndex]];
        }
        state := Idle;
      }
    }
  }
}
