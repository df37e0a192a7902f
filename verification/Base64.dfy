/**
  Base64url without padding (section 5 of RFC 4648): an encoder over chunks of
  three bytes, and a streaming decoder that shifts symbols through a 32-bit
  accumulator. Shifts and masks are written as multiplication, division and
  remainder by powers of two.
*/
module Base64 {
  import opened Prelude

  const B64: string :=
    "ABCDEFGHIJKLMNOP" + "QRSTUVWXYZabcdef" + "ghijklmnopqrstuv" + "wxyz0123456789-_"

  const ACC: nat := 0x1_0000_0000

  type sextet = v: nat | v < 64

  /** The six bits a character stands for. */
  function SymbolValue(c: char): Option<nat> {
    if 'A' <= c <= 'Z' then Some(c as nat - 'A' as nat)
    else if 'a' <= c <= 'z' then Some(c as nat - 'a' as nat + 26)
    else if '0' <= c <= '9' then Some(c as nat - '0' as nat + 52)
    else if c == '-' then Some(62)
    else if c == '_' then Some(63)
    else None
  }

  /** The character for six bits, by the ranges of the alphabet. */
  function Symbol(v: sextet): char {
    if v < 26 then ('A' as nat + v) as char
    else if v < 52 then ('a' as nat + (v - 26)) as char
    else if v < 62 then ('0' as nat + (v - 52)) as char
    else if v == 62 then '-' else '_'
  }

  /** The table lists exactly those characters. */
  lemma TableHoldsSymbols(v: sextet)
    ensures |B64| == 64 && B64[v] == Symbol(v)
  {
    match v
    case 0 => case 1 => case 2 => case 3 => case 4 => case 5 => case 6 => case 7 =>
    case 8 => case 9 => case 10 => case 11 => case 12 => case 13 => case 14 => case 15 =>
    case 16 => case 17 => case 18 => case 19 => case 20 => case 21 => case 22 => case 23 =>
    case 24 => case 25 => case 26 => case 27 => case 28 => case 29 => case 30 => case 31 =>
    case 32 => case 33 => case 34 => case 35 => case 36 => case 37 => case 38 => case 39 =>
    case 40 => case 41 => case 42 => case 43 => case 44 => case 45 => case 46 => case 47 =>
    case 48 => case 49 => case 50 => case 51 => case 52 => case 53 => case 54 => case 55 =>
    case 56 => case 57 => case 58 => case 59 => case 60 => case 61 => case 62 => case 63 =>
  }

  /** The decoder's ranges invert the alphabet, and accept no other character. */
  lemma SymbolValueInvertsSymbol(c: char, v: sextet)
    ensures SymbolValue(c) == Some(v) <==> c == Symbol(v)
  {
  }

  function Render(vs: seq<sextet>): string {
    if vs == [] then "" else [Symbol(vs[0])] + Render(vs[1..])
  }

  // ---------------------------------------------------------------------
  // Encoder
  // ---------------------------------------------------------------------

  /** The six-bit groups of one chunk of one, two or three bytes. */
  function Chunk(chunk: seq<u8>): seq<sextet>
    requires 1 <= |chunk| <= 3
  {
    var b0 := chunk[0];
    var b1 := if |chunk| >= 2 then chunk[1] else 0;
    var b2 := if |chunk| == 3 then chunk[2] else 0;
    [b0 / 4, b0 % 4 * 16 + b1 / 16]
    + (if |chunk| >= 2 then [b1 % 16 * 4 + b2 / 64] else [])
    + (if |chunk| == 3 then [b2 % 64] else [])
  }

  function Sextets(data: seq<u8>): seq<sextet> {
    if data == [] then []
    else if |data| < 3 then Chunk(data)
    else Chunk(data[..3]) + Sextets(data[3..])
  }

  function Encode(data: seq<u8>): string {
    Render(Sextets(data))
  }

  lemma {:induction false} RenderSnoc(vs: seq<sextet>, v: sextet)
    ensures Render(vs + [v]) == Render(vs) + [Symbol(v)]
  {
    if vs == [] {
      assert ([] + [v])[1..] == [];
    } else {
      assert (vs + [v])[1..] == vs[1..] + [v];
      RenderSnoc(vs[1..], v);
    }
  }

  method Emit(out: string, v: sextet, ghost vs: seq<sextet>) returns (r: string)
    requires out == Render(vs)
    ensures r == Render(vs + [v])
  {
    RenderSnoc(vs, v);
    TableHoldsSymbols(v);
    r := out + [B64[v]];
  }

  /** The chunk that starts at `i`. */
  function ChunkAt(data: seq<u8>, i: nat): (chunk: seq<u8>)
    requires i < |data|
    ensures 1 <= |chunk| <= 3 && i + |chunk| <= |data|
  {
    if i + 3 <= |data| then data[i..i + 3] else data[i..]
  }

  /** The groups still to come start with those of the chunk at `i`. */
  lemma NextChunk(data: seq<u8>, i: nat, done: seq<sextet>)
    requires i < |data|
    ensures var chunk := ChunkAt(data, i);
            done + Sextets(data[i..]) == (done + Chunk(chunk)) + Sextets(data[i + |chunk|..])
  {
    if i + 3 <= |data| {
      assert data[i..][..3] == data[i..i + 3] && data[i..][3..] == data[i + 3..];
    } else {
      assert data[i + |data[i..]|..] == [];
    }
  }

  method EncodeChunk(out: string, chunk: seq<u8>, ghost before: seq<sextet>) returns (r: string)
    requires out == Render(before) && 1 <= |chunk| <= 3
    ensures r == Render(before + Chunk(chunk))
  {
    var b0 := chunk[0];
    var b1 := if 1 < |chunk| then chunk[1] else 0;
    var b2 := if 2 < |chunk| then chunk[2] else 0;
    var v0, v1, v2, v3 := b0 / 4, b0 % 4 * 16 + b1 / 16, b1 % 16 * 4 + b2 / 64, b2 % 64;
    r := Emit(out, v0, before);
    r := Emit(r, v1, before + [v0]);
    ghost var done := before + [v0] + [v1];
    if |chunk| >= 2 {
      r := Emit(r, v2, done);
      done := done + [v2];
    }
    if |chunk| == 3 {
      r := Emit(r, v3, done);
      done := done + [v3];
    }
    assert done == before + Chunk(chunk);
  }

  method EncodeBytes(data: seq<u8>) returns (out: string)
    ensures out == Encode(data)
  {
    out := "";
    var i := 0;
    ghost var done: seq<sextet> := [];
    assert data[0..] == data;
    while i < |data|
      invariant 0 <= i <= |data|
      invariant out == Render(done) && done + Sextets(data[i..]) == Sextets(data)
    {
      var chunk := ChunkAt(data, i);
      out := EncodeChunk(out, chunk, done);
      NextChunk(data, i, done);
      done := done + Chunk(chunk);
      i := i + |chunk|;
    }
    assert data[i..] == [] && done + [] == done;
  }

  /** The alphabet by character code: capitals, small letters, digits, hyphen, underscore. */
  lemma AlphabetCodes(v: sextet)
    ensures Symbol(v) as int == if v <= 25 then 65 + v
                                else if v <= 51 then 97 + (v - 26)
                                else if v <= 61 then 48 + (v - 52)
                                else if v == 62 then 45 else 95
  {
  }

  lemma {:induction false} RenderAt(vs: seq<sextet>, i: nat)
    requires i < |vs|
    ensures |Render(vs)| == |vs| && Render(vs)[i] == Symbol(vs[i])
  {
    if |vs| > 1 {
      RenderAt(vs[1..], if i == 0 then 0 else i - 1);
    }
  }

  /** The number that digits spell, most significant first. */
  function Number(digits: seq<nat>, base: nat): nat {
    if digits == [] then 0 else Number(digits[..|digits| - 1], base) * base + digits[|digits| - 1]
  }

  lemma NumberSnoc(digits: seq<nat>, d: nat, base: nat)
    ensures Number(digits + [d], base) == Number(digits, base) * base + d
  {
    assert (digits + [d])[..|digits|] == digits;
  }

  lemma NumberOfTwo(a: nat, b: nat, base: nat)
    ensures Number([a, b], base) == a * base + b && Number([a], base) == a
  {
    NumberSnoc([], a, base);
    NumberSnoc([a], b, base);
    assert [] + [a] == [a] && [a] + [b] == [a, b];
  }

  lemma NumberOfFour(a: nat, b: nat, c: nat, d: nat, base: nat)
    ensures Number([a, b, c], base) == (a * base + b) * base + c
    ensures Number([a, b, c, d], base) == ((a * base + b) * base + c) * base + d
  {
    NumberOfTwo(a, b, base);
    NumberSnoc([a, b], c, base);
    NumberSnoc([a, b, c], d, base);
    assert [a, b] + [c] == [a, b, c] && [a, b, c] + [d] == [a, b, c, d];
  }

  /** The six-bit groups of a chunk spell its bytes as one number, with zero bits filling the last group. */
  lemma ChunkSpellsBytes(chunk: seq<u8>)
    requires 1 <= |chunk| <= 3
    ensures |Chunk(chunk)| == |chunk| + 1
    ensures Number(Chunk(chunk), 64)
            == Number(chunk, 256) * (if |chunk| == 1 then 16 else if |chunk| == 2 then 4 else 1)
  {
    var v := Chunk(chunk);
    if |chunk| == 1 {
      assert chunk == [chunk[0]] && v == [v[0], v[1]];
      NumberOfTwo(chunk[0], 0, 256);
      NumberOfTwo(v[0], v[1], 64);
    } else if |chunk| == 2 {
      assert chunk == [chunk[0], chunk[1]] && v == [v[0], v[1], v[2]];
      NumberOfTwo(chunk[0], chunk[1], 256);
      NumberOfFour(v[0], v[1], v[2], 0, 64);
    } else {
      assert chunk == [chunk[0], chunk[1], chunk[2]] && v == [v[0], v[1], v[2], v[3]];
      NumberOfFour(chunk[0], chunk[1], chunk[2], 0, 256);
      NumberOfFour(v[0], v[1], v[2], v[3], 64);
    }
  }

  /** Each three bytes take up four groups. */
  lemma {:induction false} GroupsLineUp(data: seq<u8>, k: nat)
    requires 3 * k <= |data|
    ensures 4 * k <= |Sextets(data)| && Sextets(data)[4 * k..] == Sextets(data[3 * k..])
  {
    if k == 0 {
      assert data[0..] == data;
    } else {
      var rest := Sextets(data[3..]);
      assert Sextets(data) == Chunk(data[..3]) + rest;
      GroupsLineUp(data[3..], k - 1);
      assert Sextets(data)[4 * k..] == rest[4 * (k - 1)..];
      assert data[3..][3 * (k - 1)..] == data[3 * k..];
    }
  }

  lemma SliceOfTail(vs: seq<sextet>, at: nat, piece: seq<sextet>, rest: seq<sextet>)
    requires at <= |vs| && vs[at..] == piece + rest
    ensures at + |piece| <= |vs| && vs[at..at + |piece|] == piece
  {
    assert vs[at..at + |piece|] == vs[at..][..|piece|];
  }

  lemma StartsWithChunk(data: seq<u8>, i: nat)
    requires i < |data|
    ensures var chunk := ChunkAt(data, i);
            Sextets(data[i..]) == Chunk(chunk) + Sextets(data[i + |chunk|..])
  {
    var chunk, none: seq<sextet> := ChunkAt(data, i), [];
    NextChunk(data, i, none);
    assert none + Chunk(chunk) == Chunk(chunk) && none + Sextets(data[i..]) == Sextets(data[i..]);
  }

  lemma GroupIsChunk(data: seq<u8>, k: nat)
    requires 3 * k < |data|
    ensures var groups := Chunk(ChunkAt(data, 3 * k));
            4 * k + |groups| <= |Sextets(data)| && Sextets(data)[4 * k..4 * k + |groups|] == groups
  {
    var chunk := ChunkAt(data, 3 * k);
    GroupsLineUp(data, k);
    StartsWithChunk(data, 3 * k);
    SliceOfTail(Sextets(data), 4 * k, Chunk(chunk), Sextets(data[3 * k + |chunk|..]));
  }

  /**
    Each four symbols of an encoding, or the two or three at its end, spell their three
    bytes, or the one or two left, as one big-endian number filled up with zero bits.
  */
  lemma EncodingSpellsBytes(data: seq<u8>, k: nat)
    requires 3 * k < |data|
    ensures var chunk := ChunkAt(data, 3 * k);
            && |chunk| == (if 3 * k + 3 <= |data| then 3 else |data| - 3 * k)
            && 4 * k + |chunk| + 1 <= |Sextets(data)|
            && Number(Sextets(data)[4 * k..4 * k + |chunk| + 1], 64)
               == Number(chunk, 256) * (if |chunk| == 1 then 16 else if |chunk| == 2 then 4 else 1)
  {
    ChunkSpellsBytes(ChunkAt(data, 3 * k));
    GroupIsChunk(data, k);
  }

  /** The text of an encoding has one symbol for each six bits. */
  lemma EncodingIsSymbols(data: seq<u8>, i: nat)
    requires i < |Sextets(data)|
    ensures |Encode(data)| == |Sextets(data)| && Encode(data)[i] == Symbol(Sextets(data)[i])
  {
    RenderAt(Sextets(data), i);
  }

  // ---------------------------------------------------------------------
  // Decoder
  // ---------------------------------------------------------------------

  datatype Stream = Stream(acc: u32, bits: nat, out: seq<u8>)

  function Pow2(n: nat): (p: nat)
    ensures p > 0
  {
    if n == 0 then 1 else 2 * Pow2(n - 1)
  }

  /** Shifts one symbol in; pushes a byte out once eight bits are pending. The shift drops high bits. */
  function Push(s: Stream, v: nat): Stream {
    var acc := (s.acc * 64 + v) % ACC;
    if s.bits + 6 >= 8 then Stream(acc, s.bits - 2, s.out + [acc / Pow2(s.bits - 2) % 256])
    else Stream(acc, s.bits + 6, s.out)
  }

  function Consume(s: Stream, text: string): Option<Stream>
    decreases |text|
  {
    if text == "" then Some(s)
    else
      match SymbolValue(text[0])
      case None => None
      case Some(v) => Consume(Push(s, v), text[1..])
  }

  function Decode(text: string): Option<seq<u8>> {
    match Consume(Stream(0, 0, []), text)
    case None => None
    case Some(s) => Some(s.out)
  }

  method DecodeText(text: string) returns (r: Option<seq<u8>>)
    ensures r == Decode(text)
  {
    var acc: u32 := 0;
    var bits := 0;
    var out: seq<u8> := [];
    for i := 0 to |text|
      invariant Consume(Stream(0, 0, []), text) == Consume(Stream(acc, bits, out), text[i..])
    {
      var c := text[i];
      assert text[i..][0] == c && text[i..][1..] == text[i + 1..];
      var value := SymbolValue(c);
      if value.None? {
        return None;
      }
      acc := (acc * 64 + value.value) % ACC;
      bits := bits + 6;
      if bits >= 8 {
        bits := bits - 8;
        out := out + [acc / Pow2(bits) % 256];
      }
    }
    r := Some(out);
  }

  // ---------------------------------------------------------------------
  // Decoding inverts encoding
  // ---------------------------------------------------------------------

  /** The truncating shift keeps every bit that is read again later. */
  lemma ShiftKeepsLowBits(acc: u32, v: nat)
    requires v < 64
    ensures (acc * 64 + v) % ACC % 4096 == acc % 64 * 64 + v
  {
    var x := acc * 64 + v;
    var dropped := x / ACC * 0x100000;
    assert x % ACC == x - 4096 * dropped;
    var a := acc / 64;
    assert x == 4096 * a + (acc % 64 * 64 + v);
    TwelveBits(x % ACC, a - dropped, acc % 64 * 64 + v);
  }

  lemma TwelveBits(x: nat, k: int, low: nat)
    requires low < 4096 && x == 4096 * k + low
    ensures x % 4096 == low
  {
  }

  lemma Sixteenth(x: nat, a: nat, r: nat)
    requires x == 16 * a + r && r < 16
    ensures x / 16 == a && x % 16 == r
  {
  }

  lemma Fourth(x: nat, a: nat, r: nat)
    requires x == 4 * a + r && r < 4
    ensures x / 4 == a && x % 4 == r
  {
  }

  lemma LowByte(x: nat, a: nat, r: nat)
    requires x == 256 * a + r && r < 256
    ensures x % 256 == r
  {
  }

  lemma HighPiece(acc: nat, k: nat, p: sextet, q: sextet)
    requires acc == 4096 * k + 64 * p + q
    ensures acc / 16 % 256 == p * 4 + q / 16
  {
    Sixteenth(acc, 256 * k + 4 * p + q / 16, q % 16);
    LowByte(acc / 16, k, 4 * p + q / 16);
  }

  lemma MiddlePiece(acc: nat, k: nat, p: sextet, q: sextet)
    requires acc == 4096 * k + 64 * p + q
    ensures acc / 4 % 256 == p % 16 * 16 + q / 4
  {
    Fourth(acc, 1024 * k + 16 * p + q / 4, q % 4);
    LowByte(acc / 4, 4 * k + p / 16, p % 16 * 16 + q / 4);
  }

  lemma LowPieces(acc: nat, k: nat, p: sextet, q: sextet)
    requires acc == 4096 * k + 64 * p + q
    ensures acc % 256 == p % 4 * 64 + q
    ensures acc % 64 == q && acc % 16 == q % 16 && acc % 4 == q % 4
  {
    LowByte(acc, 16 * k + p / 4, p % 4 * 64 + q);
    Sixteenth(acc, 256 * k + 4 * p + q / 16, q % 16);
    Fourth(acc, 1024 * k + 16 * p + q / 4, q % 4);
    assert acc == 64 * (64 * k + p) + q;
  }

  /** How the pieces of an accumulator read when its last two symbols are `p` and `q`. */
  lemma PiecesOf(acc: u32, p: sextet, q: sextet)
    requires acc % 4096 == p * 64 + q
    ensures acc % 64 == q && acc % 16 == q % 16 && acc % 4 == q % 4
    ensures acc / 16 % 256 == p * 4 + q / 16
    ensures acc / 4 % 256 == p % 16 * 16 + q / 4
    ensures acc % 256 == p % 4 * 64 + q
  {
    var k := acc / 4096;
    assert acc == 4096 * k + 64 * p + q;
    HighPiece(acc, k, p, q);
    MiddlePiece(acc, k, p, q);
    LowPieces(acc, k, p, q);
  }

  lemma Powers()
    ensures Pow2(0) == 1 && Pow2(2) == 4 && Pow2(4) == 16 && Pow2(6) == 64
  {
    assert Pow2(1) == 2 && Pow2(3) == 8 && Pow2(5) == 32;
  }

  /** After `q` followed `p`, with `bits` of `p` still pending. */
  lemma PushAfter(s: Stream, p: nat, q: nat)
    requires p < 64 && q < 64 && s.acc % 64 == p
    ensures var t := Push(s, q);
            && t.acc % 64 == q && t.acc % 16 == q % 16 && t.acc % 4 == q % 4
            && (s.bits == 0 ==> t.bits == 6 && t.out == s.out)
            && (s.bits == 6 ==> t.bits == 4 && t.out == s.out + [p * 4 + q / 16])
            && (s.bits == 4 ==> t.bits == 2 && t.out == s.out + [p % 16 * 16 + q / 4])
            && (s.bits == 2 ==> t.bits == 0 && t.out == s.out + [p % 4 * 64 + q])
  {
    Powers();
    ShiftKeepsLowBits(s.acc, q);
    PiecesOf((s.acc * 64 + q) % ACC, p, q);
  }

  /** What two, three and four symbols leave behind, starting with no bits pending. */
  lemma PushSymbols(s: Stream, v0: nat, v1: nat, v2: nat, v3: nat)
    requires s.bits == 0 && v0 < 64 && v1 < 64 && v2 < 64 && v3 < 64
    ensures var t := Push(Push(s, v0), v1);
            t.bits == 4 && t.out == s.out + [v0 * 4 + v1 / 16] && t.acc % 16 == v1 % 16
    ensures var t := Push(Push(Push(s, v0), v1), v2);
            t.bits == 2 && t.out == s.out + [v0 * 4 + v1 / 16, v1 % 16 * 16 + v2 / 4] && t.acc % 4 == v2 % 4
    ensures var t := Push(Push(Push(Push(s, v0), v1), v2), v3);
            t.bits == 0 && t.out == s.out + [v0 * 4 + v1 / 16, v1 % 16 * 16 + v2 / 4, v2 % 4 * 64 + v3]
  {
    var a := Push(s, v0);
    var b := Push(a, v1);
    var c := Push(b, v2);
    PushAfter(s, s.acc % 64, v0);
    PushAfter(a, v0, v1);
    PushAfter(b, v1, v2);
    PushAfter(c, v2, v3);
  }

  function PushAll(s: Stream, vs: seq<sextet>): Stream
    decreases |vs|
  {
    if vs == [] then s else PushAll(Push(s, vs[0]), vs[1..])
  }

  /** Rendered text is read back group by group. */
  lemma {:induction false} ConsumeReadsBack(s: Stream, vs: seq<sextet>)
    ensures Consume(s, Render(vs)) == Some(PushAll(s, vs))
    decreases |vs|
  {
    if vs != [] {
      SymbolValueInvertsSymbol(Symbol(vs[0]), vs[0]);
      assert Render(vs)[1..] == Render(vs[1..]);
      ConsumeReadsBack(Push(s, vs[0]), vs[1..]);
    }
  }

  lemma {:induction false} PushAllAppend(s: Stream, a: seq<sextet>, b: seq<sextet>)
    ensures PushAll(s, a + b) == PushAll(PushAll(s, a), b)
    decreases |a|
  {
    if a == [] {
      assert a + b == b;
    } else {
      assert (a + b)[1..] == a[1..] + b;
      PushAllAppend(Push(s, a[0]), a[1..], b);
    }
  }

  /** Whatever the accumulator holds, a chunk pushed with no bits pending comes out as its own bytes. */
  lemma ChunkComesOut(s: Stream, chunk: seq<u8>)
    requires s.bits == 0 && 1 <= |chunk| <= 3
    ensures PushAll(s, Chunk(chunk)).out == s.out + chunk
    ensures |chunk| == 3 ==> PushAll(s, Chunk(chunk)).bits == 0
  {
    var b0 := chunk[0];
    var b1 := if |chunk| >= 2 then chunk[1] else 0;
    var b2 := if |chunk| == 3 then chunk[2] else 0;
    BytesReassemble(b0, b1, b2);
    var v0, v1, v2, v3 := b0 / 4, b0 % 4 * 16 + b1 / 16, b1 % 16 * 4 + b2 / 64, b2 % 64;
    GroupsComeOut(s, v0, v1, v2, v3);
    if |chunk| == 1 {
      assert chunk == [b0] && Chunk(chunk) == [v0, v1];
    } else if |chunk| == 2 {
      assert chunk == [b0, b1] && Chunk(chunk) == [v0, v1, v2];
    } else {
      assert chunk == [b0, b1, b2] && Chunk(chunk) == [v0, v1, v2, v3];
    }
  }

  lemma GroupsComeOut(s: Stream, v0: sextet, v1: sextet, v2: sextet, v3: sextet)
    requires s.bits == 0
    ensures PushAll(s, [v0, v1]).out == s.out + [v0 * 4 + v1 / 16]
    ensures PushAll(s, [v0, v1, v2]).out == s.out + [v0 * 4 + v1 / 16, v1 % 16 * 16 + v2 / 4]
    ensures PushAll(s, [v0, v1, v2, v3]).out == s.out + [v0 * 4 + v1 / 16, v1 % 16 * 16 + v2 / 4, v2 % 4 * 64 + v3]
    ensures PushAll(s, [v0, v1, v2, v3]).bits == 0
  {
    PushSymbols(s, v0, v1, v2, v3);
    PushAllIs(s, [v0, v1]);
    PushAllIs(s, [v0, v1, v2]);
    PushAllIs(s, [v0, v1, v2, v3]);
  }

  lemma BytesReassemble(b0: u8, b1: u8, b2: u8)
    ensures var v0, v1, v2, v3 := b0 / 4, b0 % 4 * 16 + b1 / 16, b1 % 16 * 4 + b2 / 64, b2 % 64;
            && v0 < 64 && v1 < 64 && v2 < 64 && v3 < 64
            && v0 * 4 + v1 / 16 == b0
            && v1 % 16 * 16 + v2 / 4 == b1
            && v2 % 4 * 64 + v3 == b2
  {
  }

  lemma PushAllIs(s: Stream, vs: seq<sextet>)
    requires 2 <= |vs| <= 4
    ensures PushAll(s, vs) ==
            var t := Push(Push(s, vs[0]), vs[1]);
            if |vs| == 2 then t else if |vs| == 3 then Push(t, vs[2]) else Push(Push(t, vs[2]), vs[3])
  {
    var t := Push(Push(s, vs[0]), vs[1]);
    assert vs[1..][1..] == vs[2..];
    assert PushAll(s, vs) == PushAll(Push(s, vs[0]), vs[1..]) == PushAll(t, vs[2..]);
    if |vs| > 2 {
      assert vs[2..][1..] == vs[3..];
      assert PushAll(t, vs[2..]) == PushAll(Push(t, vs[2]), vs[3..]);
      if |vs| > 3 {
        assert vs[3..][1..] == vs[4..] == [];
      }
    }
  }

  /** From any accumulator with no bits pending, pushing the groups of `data` appends exactly `data`. */
  lemma {:induction false} DataComesOut(s: Stream, data: seq<u8>)
    requires s.bits == 0
    ensures PushAll(s, Sextets(data)).out == s.out + data
    decreases |data|
  {
    if 0 < |data| < 3 {
      ChunkComesOut(s, data);
    } else if data != [] {
      ChunkComesOut(s, data[..3]);
      PushAllAppend(s, Chunk(data[..3]), Sextets(data[3..]));
      DataComesOut(PushAll(s, Chunk(data[..3])), data[3..]);
      assert data == data[..3] + data[3..];
    }
  }

  /** Decoding inverts encoding, for every byte sequence. */
  lemma {:induction false} DecodeInvertsEncode(data: seq<u8>)
    ensures Decode(Encode(data)) == Some(data)
  {
    ConsumeReadsBack(Stream(0, 0, []), Sextets(data));
    DataComesOut(Stream(0, 0, []), data);
    assert [] + data == data;
  }

  // ---------------------------------------------------------------------
  // Which texts are canonical
  // ---------------------------------------------------------------------

  /** No lone symbol at the end, and the bits still pending are zero. */
  predicate Clean(s: Stream) {
    s.bits != 6 && s.acc % Pow2(s.bits) == 0
  }

  lemma {:induction false} PushAllExtends(s: Stream, vs: seq<sextet>)
    ensures s.out <= PushAll(s, vs).out
    decreases |vs|
  {
    if vs != [] {
      PushAllExtends(Push(s, vs[0]), vs[1..]);
    }
  }

  /** The bytes that `vs` adds. */
  function Added(s: Stream, vs: seq<sextet>): seq<u8> {
    PushAllExtends(s, vs);
    PushAll(s, vs).out[|s.out|..]
  }

  lemma GroupsReassemble(v0: sextet, v1: sextet, v2: sextet, v3: sextet)
    ensures var c0, c1, c2 := v0 * 4 + v1 / 16, v1 % 16 * 16 + v2 / 4, v2 % 4 * 64 + v3;
            && c0 < 256 && c1 < 256 && c2 < 256
            && c0 / 4 == v0
            && c0 % 4 * 16 + c1 / 16 == v1
            && c1 % 16 * 4 + c2 / 64 == v2
            && c2 % 64 == v3
            && (c0 % 4 * 16 == v1 <==> v1 % 16 == 0)
            && (c1 % 16 * 4 == v2 <==> v2 % 4 == 0)
  {
  }

  lemma LoneSymbolIsNotCanonical(s: Stream, v0: sextet)
    requires s.bits == 0
    ensures Sextets(Added(s, [v0])) != [v0] && !Clean(PushAll(s, [v0]))
  {
    assert PushAll(s, [v0]) == Push(s, v0);
    PushAfter(s, s.acc % 64, v0);
    assert Added(s, [v0]) == [];
  }

  lemma TwoAreCanonicalIffClean(s: Stream, v0: sextet, v1: sextet)
    requires s.bits == 0
    ensures Sextets(Added(s, [v0, v1])) == [v0, v1] <==> Clean(PushAll(s, [v0, v1]))
  {
    Powers();
    PushSymbols(s, v0, v1, 0, 0);
    PushAllIs(s, [v0, v1]);
    GroupsReassemble(v0, v1, 0, 0);
    var c: seq<u8> := [v0 * 4 + v1 / 16];
    assert Added(s, [v0, v1]) == c;
    assert Chunk(c) == [v0, c[0] % 4 * 16];
  }

  lemma ThreeAreCanonicalIffClean(s: Stream, v0: sextet, v1: sextet, v2: sextet)
    requires s.bits == 0
    ensures Sextets(Added(s, [v0, v1, v2])) == [v0, v1, v2] <==> Clean(PushAll(s, [v0, v1, v2]))
  {
    Powers();
    PushSymbols(s, v0, v1, v2, 0);
    PushAllIs(s, [v0, v1, v2]);
    GroupsReassemble(v0, v1, v2, 0);
    var c: seq<u8> := [v0 * 4 + v1 / 16, v1 % 16 * 16 + v2 / 4];
    assert Added(s, [v0, v1, v2]) == c;
    assert Chunk(c) == [v0, v1, c[1] % 16 * 4];
  }

  lemma TailIsCanonicalIffClean(s: Stream, vs: seq<sextet>)
    requires s.bits == 0 && |vs| < 4
    ensures Sextets(Added(s, vs)) == vs <==> Clean(PushAll(s, vs))
  {
    if |vs| == 1 {
      LoneSymbolIsNotCanonical(s, vs[0]);
      assert vs == [vs[0]];
    } else if |vs| == 2 {
      TwoAreCanonicalIffClean(s, vs[0], vs[1]);
      assert vs == [vs[0], vs[1]];
    } else if |vs| == 3 {
      ThreeAreCanonicalIffClean(s, vs[0], vs[1], vs[2]);
      assert vs == [vs[0], vs[1], vs[2]];
    } else {
      Powers();
      assert Added(s, []) == [];
    }
  }

  /** Four groups give three bytes that encode back to them. */
  lemma FourGroupsAreCanonical(s: Stream, v0: sextet, v1: sextet, v2: sextet, v3: sextet, rest: seq<sextet>)
    requires s.bits == 0
    ensures var head := [v0, v1, v2, v3];
            && PushAll(s, head).bits == 0
            && PushAll(s, head + rest) == PushAll(PushAll(s, head), rest)
            && Sextets(Added(s, head + rest)) == head + Sextets(Added(PushAll(s, head), rest))
  {
    var head := [v0, v1, v2, v3];
    GroupsComeOut(s, v0, v1, v2, v3);
    GroupsReassemble(v0, v1, v2, v3);
    PushAllAppend(s, head, rest);
    var t := PushAll(s, head);
    PushAllExtends(t, rest);
    var c: seq<u8> := [v0 * 4 + v1 / 16, v1 % 16 * 16 + v2 / 4, v2 % 4 * 64 + v3];
    assert Added(s, head + rest) == c + Added(t, rest);
    SextetsCons(c, Added(t, rest));
    assert Chunk(c) == head;
  }

  lemma {:induction false} CanonicalIffClean(s: Stream, vs: seq<sextet>)
    requires s.bits == 0
    ensures Sextets(Added(s, vs)) == vs <==> Clean(PushAll(s, vs))
    decreases |vs|
  {
    if |vs| < 4 {
      TailIsCanonicalIffClean(s, vs);
    } else {
      var head, rest := vs[..4], vs[4..];
      assert vs == head + rest && head == [vs[0], vs[1], vs[2], vs[3]];
      FourGroupsAreCanonical(s, vs[0], vs[1], vs[2], vs[3], rest);
      CanonicalIffClean(PushAll(s, head), rest);
    }
  }

  lemma SextetsCons(c: seq<u8>, rest: seq<u8>)
    requires |c| == 3
    ensures Sextets(c + rest) == Chunk(c) + Sextets(rest)
  {
    assert (c + rest)[..3] == c && (c + rest)[3..] == rest;
  }

  /** Every text that decodes is the rendering of some groups. */
  lemma {:induction false} DecodedIsRendered(s: Stream, text: string) returns (vs: seq<sextet>)
    requires Consume(s, text).Some?
    ensures text == Render(vs) && Consume(s, text) == Some(PushAll(s, vs))
    decreases |text|
  {
    if text == "" {
      vs := [];
    } else {
      var v: sextet := SymbolValue(text[0]).value;
      SymbolValueInvertsSymbol(text[0], v);
      var tail := DecodedIsRendered(Push(s, v), text[1..]);
      vs := [v] + tail;
      assert vs[1..] == tail;
    }
  }

  lemma {:induction false} RenderIsInjective(a: seq<sextet>, b: seq<sextet>)
    requires Render(a) == Render(b)
    ensures a == b
    decreases |a|
  {
    if a != [] && b != [] {
      assert Render(a)[0] == Symbol(a[0]) && Render(b)[0] == Symbol(b[0]);
      SymbolValueInvertsSymbol(Symbol(a[0]), a[0]);
      SymbolValueInvertsSymbol(Symbol(b[0]), b[0]);
      assert Render(a)[1..] == Render(a[1..]) && Render(b)[1..] == Render(b[1..]);
      RenderIsInjective(a[1..], b[1..]);
    }
  }

  /** A text that decodes is the encoding of its result exactly when the decoder ends clean. */
  lemma EncodeInvertsDecodeIffClean(text: string)
    requires Decode(text).Some?
    ensures Encode(Decode(text).value) == text <==> Clean(Consume(Stream(0, 0, []), text).value)
  {
    var start := Stream(0, 0, []);
    var vs := DecodedIsRendered(start, text);
    CanonicalIffClean(start, vs);
    assert Added(start, vs) == Decode(text).value;
    if Encode(Decode(text).value) == text {
      RenderIsInjective(Sextets(Added(start, vs)), vs);
    }
  }

  // ---------------------------------------------------------------------
  // The same, read off the text
  // ---------------------------------------------------------------------

  /** The value of the last symbol is a multiple of `m`. */
  predicate LastDivides(text: string, m: nat)
    requires text != "" && m > 0
  {
    var v := SymbolValue(text[|text| - 1]);
    v.Some? && v.value % m == 0
  }

  /** No lone symbol after the last full group, and no stray low bits in the last symbol of a short one. */
  predicate CanonicalText(text: string) {
    && |text| % 4 != 1
    && (|text| % 4 == 2 ==> LastDivides(text, 16))
    && (|text| % 4 == 3 ==> LastDivides(text, 4))
  }

  /** The bits pending after `n` symbols. */
  function PendingAfter(n: nat): nat {
    match n % 4 case 0 => 0 case 1 => 6 case 2 => 4 case _ => 2
  }

  lemma PendingStep(n: nat)
    ensures PendingAfter(n + 1) == if PendingAfter(n) + 6 >= 8 then PendingAfter(n) - 2 else PendingAfter(n) + 6
  {
  }

  lemma {:induction false} StreamPends(s: Stream, text: string, n: nat)
    requires Consume(s, text).Some? && s.bits == PendingAfter(n)
    ensures Consume(s, text).value.bits == PendingAfter(n + |text|)
    decreases |text|
  {
    if text != "" {
      var t := Push(s, SymbolValue(text[0]).value);
      PendingStep(n);
      StreamPends(t, text[1..], n + 1);
      assert n + 1 + |text[1..]| == n + |text|;
    }
  }

  /** The low bits of the accumulator are those of the last symbol. */
  lemma {:induction false} StreamEndsOnLast(s: Stream, text: string)
    requires text != "" && Consume(s, text).Some?
    ensures var t := Consume(s, text).value;
            (t.acc % 16 == 0 <==> LastDivides(text, 16)) && (t.acc % 4 == 0 <==> LastDivides(text, 4))
    decreases |text|
  {
    var v := SymbolValue(text[0]).value;
    if |text| == 1 {
      PushAfter(s, s.acc % 64, v);
      assert Consume(s, text) == Some(Push(s, v));
    } else {
      StreamEndsOnLast(Push(s, v), text[1..]);
      assert text[1..][|text| - 2] == text[|text| - 1];
    }
  }

  /**
    The decoder is laxer than the encoder: a text that decodes is the encoding of its
    result if and only if it is canonical.
  */
  lemma EncodeInvertsDecodeIffCanonical(text: string)
    requires Decode(text).Some?
    ensures Encode(Decode(text).value) == text <==> CanonicalText(text)
  {
    EncodeInvertsDecodeIffClean(text);
    CleanIffCanonical(text);
  }

  lemma CleanIffCanonical(text: string)
    requires Decode(text).Some?
    ensures Clean(Consume(Stream(0, 0, []), text).value) <==> CanonicalText(text)
  {
    Powers();
    StreamPends(Stream(0, 0, []), text, 0);
    if text != "" {
      StreamEndsOnLast(Stream(0, 0, []), text);
    }
  }

  /** A stray low bit goes unnoticed: "AB" decodes to what "AA" encodes. */
  lemma StrayBitsAreAccepted()
    ensures Decode("AB") == Some([0]) && Encode([0]) == "AA" && !CanonicalText("AB")
  {
    var s := Stream(0, 0, []);
    PushSymbols(s, 0, 1, 0, 0);
    var text: string := ['A', 'B'];
    assert text == "AB" && text[1..] == ['B'] && text[1..][1..] == "";
    assert Consume(s, text) == Consume(Push(s, 0), text[1..]);
    assert Consume(Push(s, 0), text[1..]) == Consume(Push(Push(s, 0), 1), text[1..][1..]);
    assert s.out + [0 * 4 + 1 / 16] == [0];
    assert Sextets([0]) == [0, 0];
    var vs: seq<sextet> := [0, 0];
    assert vs[1..] == [0] && vs[1..][1..] == [];
    assert Render(vs) == ['A', 'A'];
    assert SymbolValue(text[1]) == Some(1);
  }
}
