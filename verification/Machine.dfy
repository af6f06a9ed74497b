/** The 32-bit machine the kernel runs on: word and byte types, wrap-around, little-endian loads and stores. */
module Machine {

  const TWO32 := 0x1_0000_0000

  type u32 = x: int | 0 <= x < 0x1_0000_0000

  type byte = x: int | 0 <= x < 256

  datatype Option<+T> = None | Some(value: T)

  /** What an unsigned 32-bit operation leaves of the mathematical result. */
  function Wrap(x: int): u32 {
    x % 0x1_0000_0000
  }

  /** a + b on u32_t */
  function Add32(a: u32, b: u32): u32 {
    if a + b < 0x1_0000_0000 then a + b else a + b - 0x1_0000_0000
  }

  /** a - b on u32_t */
  function Sub32(a: u32, b: u32): u32 {
    if b <= a then a - b else a - b + 0x1_0000_0000
  }

  /** The word whose bytes, least significant first, are b0, b1, b2 and b3. */
  function FromBytes(b0: int, b1: int, b2: int, b3: int): int {
    b0 + 0x100 * b1 + 0x1_0000 * b2 + 0x100_0000 * b3
  }

  /** The little-endian word at address p of a byte store. */
  function Word(m: seq<byte>, p: nat): u32
    requires p + 4 <= |m|
  {
    FromBytes(m[p], m[p + 1], m[p + 2], m[p + 3])
  }

  lemma WordOfBytes(v: u32)
    ensures FromBytes(v % 0x100, v / 0x100 % 0x100, v / 0x1_0000 % 0x100, v / 0x100_0000) == v
    ensures v / 0x100_0000 < 0x100
  {
    assert v / 0x1_0000 == v / 0x100 / 0x100 && v / 0x100_0000 == v / 0x1_0000 / 0x100;
  }

  /** The byte store after the word v is written at address p. */
  function PutWord(m: seq<byte>, p: nat, v: u32): (r: seq<byte>)
    requires p + 4 <= |m|
    ensures |r| == |m|
    ensures Word(r, p) == v
    ensures forall q: nat {:trigger Word(r, q)} | q + 4 <= |m| && (q + 4 <= p || p + 4 <= q) :: Word(r, q) == Word(m, q)
    ensures forall k {:trigger r[k]} | 0 <= k < |m| && !(p <= k < p + 4) :: r[k] == m[k]
  {
    WordOfBytes(v);
    m[p := v % 0x100][p + 1 := v / 0x100 % 0x100][p + 2 := v / 0x1_0000 % 0x100][p + 3 := v / 0x100_0000]
  }

  /** *(u32_t *)p */
  function Load(ram: array<byte>, p: nat): (v: u32)
    requires p + 4 <= ram.Length
    reads ram
    ensures v == Word(ram[..], p)
  {
    FromBytes(ram[p], ram[p + 1], ram[p + 2], ram[p + 3])
  }

  /** *(u32_t *)p = v */
  method Store(ram: array<byte>, p: nat, v: u32)
    requires p + 4 <= ram.Length
    modifies ram
    ensures ram[..] == PutWord(old(ram[..]), p, v)
  {
    ram[p] := v % 0x100;
    ram[p + 1] := v / 0x100 % 0x100;
    ram[p + 2] := v / 0x1_0000 % 0x100;
    ram[p + 3] := v / 0x100_0000;
  }

  /** *(u8_t *)p = v */
  method StoreByte(ram: array<byte>, p: nat, v: byte)
    requires p < ram.Length
    modifies ram
    ensures ram[..] == old(ram[..])[p := v]
  {
    ram[p] := v;
  }
}
