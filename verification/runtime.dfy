/** What the routines and instruction sequences the code generator emits do
    to the Z80's memory when they run: the zeroing loops of `init` and `cls`,
    the `copy_font` loop, `draw_sprite` and the DXYN address computation, and
    the FX29, FX33, FX55 and FX65 sequences (src/codegen.rs:131-172, 213-241,
    343-380, 721-785, 865-971). Memory is an array of 65536 bytes; a register
    pair that is incremented or added to wraps modulo 2^16. */
module Runtime {
  import opened Types
  import opened Translation

  /** Size of the Z80 address space. */
  const MEM: nat := 0x10000

  /** A 16-bit register pair after an increment or an addition. */
  function Addr(x: nat): (a: nat)
    requires x < 2 * MEM
    ensures a < MEM && a % MEM == x % MEM
  {
    if x < MEM then x else x - MEM
  }

  // ---------------------------------------------------------------------
  // Bitwise operations on bytes, defined bit by bit from the lowest

  function Pow2(bits: nat): (p: nat)
    ensures p >= 1
  {
    if bits == 0 then 1 else 2 * Pow2(bits - 1)
  }

  /** Exclusive or of the low `bits` bits of `a` and `b`. */
  function XorBits(a: nat, b: nat, bits: nat): (r: nat)
    ensures r < Pow2(bits)
  {
    if bits == 0 then 0
    else (if a % 2 == b % 2 then 0 else 1) + 2 * XorBits(a / 2, b / 2, bits - 1)
  }

  /** Conjunction of the low `bits` bits of `a` and `b`. */
  function AndBits(a: nat, b: nat, bits: nat): (r: nat)
    ensures r < Pow2(bits)
  {
    if bits == 0 then 0
    else (if a % 2 == 1 && b % 2 == 1 then 1 else 0) + 2 * AndBits(a / 2, b / 2, bits - 1)
  }

  /** Disjunction of the low `bits` bits of `a` and `b`. */
  function OrBits(a: nat, b: nat, bits: nat): (r: nat)
    ensures r < Pow2(bits)
  {
    if bits == 0 then 0
    else (if a % 2 == 1 || b % 2 == 1 then 1 else 0) + 2 * OrBits(a / 2, b / 2, bits - 1)
  }

  function Xor(a: u8, b: u8): u8 { XorBits(a, b, 8) }
  function And(a: u8, b: u8): u8 { AndBits(a, b, 8) }
  function Or(a: u8, b: u8): u8 { OrBits(a, b, 8) }

  /** XOR with the same bits twice gives back the original bits. */
  lemma {:induction false} XorBitsTwice(a: nat, b: nat, bits: nat)
    requires a < Pow2(bits)
    ensures XorBits(XorBits(a, b, bits), b, bits) == a
  {
    if bits > 0 {
      var y := XorBits(a / 2, b / 2, bits - 1);
      var x := XorBits(a, b, bits);
      var lo := if a % 2 == b % 2 then 0 else 1;
      assert x == lo + 2 * y;
      assert x % 2 == lo && x / 2 == y;
      XorBitsTwice(a / 2, b / 2, bits - 1);
      assert XorBits(x, b, bits) == (if lo == b % 2 then 0 else 1) + 2 * XorBits(y, b / 2, bits - 1);
    }
  }

  /** An OR of bits is clear exactly when both operands are. */
  lemma {:induction false} OrBitsZero(a: nat, b: nat, bits: nat)
    requires a < Pow2(bits) && b < Pow2(bits)
    ensures OrBits(a, b, bits) == 0 <==> a == 0 && b == 0
  {
    if bits > 0 {
      OrBitsZero(a / 2, b / 2, bits - 1);
    }
  }

  /** The CHIP-8 index register I, stored little-endian at CHIP8_I. */
  function RegI(m: seq<u8>): (i: u16)
    requires |m| == MEM
  {
    m[CHIP8_I] as int + 0x100 * (m[CHIP8_I + 1] as int)
  }

  /** The Z80 address FX33, FX55 and FX65 use for CHIP-8 address I:
      `CHIP8_RAM - 0x200` plus I, with a 16-bit addition. */
  function RamAddress(i: u16): (a: nat)
    ensures a < MEM
    ensures 0x200 <= i < 0x200 + (MEM - CHIP8_RAM) ==> a == CHIP8_RAM + (i - 0x200)
    ensures i < 0x200 ==> a == DISPLAY_BUF + i
  {
    Addr(CHIP8_RAM - 0x200 + i)
  }

  // ---------------------------------------------------------------------
  // Zeroing loops: `init_clear` and `cls_loop`

  /** The loop `xor a; ld (hl),a; inc hl; dec bc; ld a,b; or c; jr nz` that
      `init_clear` and `cls_loop` run: `count` zero bytes from `start` on. */
  method ZeroFill(mem: array<u8>, start: nat, count: nat)
    requires mem.Length == MEM && start + count <= MEM
    modifies mem
    ensures forall a :: 0 <= a < MEM ==>
      mem[a] == if start <= a < start + count then 0 else old(mem[a])
  {
    var hl := start;
    while hl < start + count
      invariant start <= hl <= start + count
      invariant forall a :: 0 <= a < MEM ==>
        mem[a] == if start <= a < hl then 0 else old(mem[a])
    {
      mem[hl] := 0;
      hl := hl + 1;
    }
  }

  /** Every byte of the 64x32 display buffer is clear. */
  predicate Blank(m: seq<u8>)
    requires |m| == MEM
  {
    forall a :: DISPLAY_BUF <= a < DISPLAY_BUF + 256 ==> m[a] == 0
  }

  /** `cls`: clears the 256 display bytes. The jump to `refresh_display`
      that follows is not modelled: besides the serial port it writes the
      stack (its `push af` and its calls to `print_char`). */
  method Cls(mem: array<u8>)
    requires mem.Length == MEM
    modifies mem
    ensures Blank(mem[..])
    ensures forall a :: 0 <= a < MEM && !(DISPLAY_BUF <= a < DISPLAY_BUF + 256) ==> mem[a] == old(mem[a])
  {
    ZeroFill(mem, DISPLAY_BUF, 256);
  }

  // ---------------------------------------------------------------------
  // Copy loops: `copy_font_loop`, `store_regs`, `load_regs`

  /** Copying `n` bytes one at a time from `src` to `dst`, each pointer
      stepping with a 16-bit increment. A byte is read after the earlier
      writes, so overlapping ranges behave as the Z80 loop does. */
  function CopyRun(m: seq<u8>, src: nat, dst: nat, n: nat): (r: seq<u8>)
    requires |m| == MEM && src < MEM && dst < MEM
    ensures |r| == MEM
    decreases n
  {
    if n == 0 then m
    else CopyRun(m[dst := m[src]], Addr(src + 1), Addr(dst + 1), n - 1)
  }

  /** The loop `ld a,(hl); ld (de),a; inc hl; inc de; dec b(c); ... jr nz`
      of `copy_font`, FX55 and FX65, for a count that is not zero. */
  method CopyLoop(mem: array<u8>, src: nat, dst: nat, count: nat)
    requires mem.Length == MEM && src < MEM && dst < MEM
    modifies mem
    ensures mem[..] == CopyRun(old(mem[..]), src, dst, count)
  {
    var hl: nat, de: nat, k := src, dst, 0;
    while k < count
      invariant 0 <= k <= count && hl < MEM && de < MEM
      invariant CopyRun(mem[..], hl, de, count - k) == CopyRun(old(mem[..]), src, dst, count)
    {
      ghost var before := mem[..];
      mem[de] := mem[hl];
      assert mem[..] == before[de := before[hl]];
      hl, de, k := Addr(hl + 1), Addr(de + 1), k + 1;
    }
  }

  /** The copy writes only to its `n` destination bytes. */
  lemma {:induction false} CopyRunFrame(m: seq<u8>, src: nat, dst: nat, n: nat)
    requires |m| == MEM && src < MEM && dst < MEM && dst + n <= MEM
    ensures forall a :: 0 <= a < MEM && !(dst <= a < dst + n) ==> CopyRun(m, src, dst, n)[a] == m[a]
    decreases n
  {
    if n > 0 {
      var m1 := m[dst := m[src]];
      assert CopyRun(m, src, dst, n) == CopyRun(m1, Addr(src + 1), Addr(dst + 1), n - 1);
      CopyRunFrame(m1, Addr(src + 1), Addr(dst + 1), n - 1);
    }
  }

  /** When the two ranges neither wrap nor overlap, each destination byte
      ends up holding the source byte at the same offset. */
  lemma {:induction false} CopyRunCopies(m: seq<u8>, src: nat, dst: nat, n: nat)
    requires |m| == MEM && src < MEM && dst < MEM && src + n <= MEM && dst + n <= MEM
    requires src + n <= dst || dst + n <= src
    ensures forall a :: dst <= a < dst + n ==> CopyRun(m, src, dst, n)[a] == m[a - dst + src]
    decreases n
  {
    if n > 0 {
      var m1 := m[dst := m[src]];
      var r := CopyRun(m, src, dst, n);
      assert r == CopyRun(m1, Addr(src + 1), Addr(dst + 1), n - 1);
      CopyRunFrame(m1, Addr(src + 1), Addr(dst + 1), n - 1);
      assert r[dst] == m[src];
      if n > 1 {
        CopyRunCopies(m1, src + 1, dst + 1, n - 1);
        forall a | dst + 1 <= a < dst + n
          ensures r[a] == m[a - dst + src]
        {
          assert m1[a - dst + src] == m[a - dst + src];
        }
      }
    }
  }

  /** The same, as slices: the destination range ends up equal to the
      source range as it was. */
  lemma CopyRunSlice(m: seq<u8>, src: nat, dst: nat, n: nat)
    requires |m| == MEM && src < MEM && dst < MEM && src + n <= MEM && dst + n <= MEM
    requires src + n <= dst || dst + n <= src
    ensures CopyRun(m, src, dst, n)[dst..dst + n] == m[src..src + n]
  {
    var r := CopyRun(m, src, dst, n);
    CopyRunCopies(m, src, dst, n);
    var copied, original := r[dst..dst + n], m[src..src + n];
    forall k | 0 <= k < n
      ensures copied[k] == original[k]
    {
      assert r[dst + k] == m[src + k];
    }
  }

  /** `copy_font`: the 80 bytes at label `font_rom` go to FONT_DATA. */
  method CopyFont(mem: array<u8>, fontRom: nat)
    requires mem.Length == MEM && fontRom + 80 <= CHIP8_V0
    modifies mem
    ensures mem[..] == CopyRun(old(mem[..]), fontRom, FONT_DATA, 80)
  {
    CopyLoop(mem, fontRom, FONT_DATA, 80);
  }

  /** FX55: V0..Vx are copied to the bytes at `RamAddress(I)` on. */
  method StoreRegs(mem: array<u8>, x: nat)
    requires mem.Length == MEM && x < 16
    modifies mem
    ensures mem[..] == CopyRun(old(mem[..]), CHIP8_V0, RamAddress(RegI(old(mem[..]))), x + 1)
  {
    var i := mem[CHIP8_I] as int + 0x100 * (mem[CHIP8_I + 1] as int);
    assert i == RegI(mem[..]);
    CopyLoop(mem, CHIP8_V0, RamAddress(i), x + 1);
  }

  /** FX65: the bytes at `RamAddress(I)` on are copied to V0..Vx. */
  method LoadRegs(mem: array<u8>, x: nat)
    requires mem.Length == MEM && x < 16
    modifies mem
    ensures mem[..] == CopyRun(old(mem[..]), RamAddress(RegI(old(mem[..]))), CHIP8_V0, x + 1)
  {
    var i := mem[CHIP8_I] as int + 0x100 * (mem[CHIP8_I + 1] as int);
    assert i == RegI(mem[..]);
    CopyLoop(mem, RamAddress(i), CHIP8_V0, x + 1);
  }

  /** With I at a CHIP-8 RAM address whose register image does not wrap,
      FX55 puts V0..Vx in CHIP-8 RAM and changes nothing else, and an FX65
      with the same I and x that follows it reads them back: the second copy
      leaves memory as the first left it. */
  lemma StoreThenLoad(m: seq<u8>, x: nat)
    requires |m| == MEM && x < 16
    requires 0x200 <= RegI(m) && CHIP8_RAM + (RegI(m) - 0x200) + x + 1 <= MEM
    ensures var a := RamAddress(RegI(m)); var stored := CopyRun(m, CHIP8_V0, a, x + 1);
      && (forall b :: a <= b <= a + x ==> stored[b] == m[b - a + CHIP8_V0])
      && (forall b :: 0 <= b < MEM && !(a <= b <= a + x) ==> stored[b] == m[b])
      && CopyRun(stored, a, CHIP8_V0, x + 1) == stored
  {
    var a := RamAddress(RegI(m));
    var stored := CopyRun(m, CHIP8_V0, a, x + 1);
    CopyRunFrame(m, CHIP8_V0, a, x + 1);
    CopyRunCopies(m, CHIP8_V0, a, x + 1);
    forall b | a <= b <= a + x
      ensures stored[b] == stored[b - a + CHIP8_V0]
    {
      assert stored[b - a + CHIP8_V0] == m[b - a + CHIP8_V0];
    }
    ReloadUnchanged(stored, a, x);
  }

  /** Copying CHIP-8 RAM back to V0..Vx changes nothing when those
      registers already equal the bytes being copied. */
  lemma ReloadUnchanged(s: seq<u8>, a: nat, x: nat)
    requires |s| == MEM && x < 16 && CHIP8_RAM <= a && a + x + 1 <= MEM
    requires forall b :: a <= b <= a + x ==> s[b] == s[b - a + CHIP8_V0]
    ensures CopyRun(s, a, CHIP8_V0, x + 1) == s
  {
    var loaded := CopyRun(s, a, CHIP8_V0, x + 1);
    CopyRunFrame(s, a, CHIP8_V0, x + 1);
    CopyRunCopies(s, a, CHIP8_V0, x + 1);
    forall b | 0 <= b < MEM
      ensures loaded[b] == s[b]
    {
      if CHIP8_V0 <= b <= CHIP8_V0 + x {
        assert loaded[b] == s[b - CHIP8_V0 + a];
      }
    }
  }

  // ---------------------------------------------------------------------
  // `init`

  /** The register part of `init`: the 32 bytes from CHIP8_V0 on (V0..VF,
      I, the stack pointer, the timers, the key and the RNG state) are
      cleared, then the RNG state is seeded with 0xACE1. */
  method InitRegisters(mem: array<u8>)
    requires mem.Length == MEM
    modifies mem
    ensures forall a :: CHIP8_V0 <= a < CHIP8_V0 + 32 && a != CHIP8_RNG && a != CHIP8_RNG + 1 ==> mem[a] == 0
    ensures mem[CHIP8_RNG] == RNG_SEED_LO && mem[CHIP8_RNG + 1] == RNG_SEED_HI
    ensures forall a :: 0 <= a < MEM && !(CHIP8_V0 <= a < CHIP8_V0 + 32) ==> mem[a] == old(mem[a])
  {
    ZeroFill(mem, CHIP8_V0, 32);
    mem[CHIP8_RNG] := RNG_SEED_LO;
    mem[CHIP8_RNG + 1] := RNG_SEED_HI;
  }

  /** When `font_rom` holds the font, `copy_font` leaves the font at
      FONT_DATA and every other byte as it was. */
  lemma CopyFontEffect(m: seq<u8>, fontRom: nat)
    requires |m| == MEM && fontRom + 80 <= CHIP8_V0
    requires m[fontRom..fontRom + 80] == FONT
    ensures var r := CopyRun(m, fontRom, FONT_DATA, 80);
      && r[FONT_DATA..FONT_DATA + 80] == FONT
      && forall a :: 0 <= a < MEM && !(FONT_DATA <= a < FONT_DATA + 80) ==> r[a] == m[a]
  {
    CopyRunFrame(m, fontRom, FONT_DATA, 80);
    CopyRunSlice(m, fontRom, FONT_DATA, 80);
  }

  /** The data effect of `init` once `font_rom` holds the font: the register
      block is clear but for the RNG seed, the display is clear and
      FONT_DATA holds the font. The stack bytes that `init`'s calls write
      (return addresses and pushes below SP = 0, that is from 0xFFFF down)
      are not modelled, and neither is the serial output of `acia_init` and
      `print_banner`. */
  method Init(mem: array<u8>, fontRom: nat)
    requires mem.Length == MEM && fontRom + 80 <= CHIP8_V0
    requires mem[fontRom..fontRom + 80] == FONT
    modifies mem
    ensures forall a :: CHIP8_V0 <= a < CHIP8_V0 + 32 && a != CHIP8_RNG && a != CHIP8_RNG + 1 ==> mem[a] == 0
    ensures mem[CHIP8_RNG] == RNG_SEED_LO && mem[CHIP8_RNG + 1] == RNG_SEED_HI
    ensures Blank(mem[..])
    ensures mem[FONT_DATA..FONT_DATA + 80] == FONT
    ensures forall a ::
      (0 <= a < MEM && !(CHIP8_V0 <= a < CHIP8_V0 + 32) && !(DISPLAY_BUF <= a < FONT_DATA + 80)) ==> mem[a] == old(mem[a])
  {
    InitRegisters(mem);
    Cls(mem);
    assert mem[fontRom..fontRom + 80] == old(mem[fontRom..fontRom + 80]);
    ghost var before := mem[..];
    CopyFont(mem, fontRom);
    CopyFontEffect(before, fontRom);
  }

  // ---------------------------------------------------------------------
  // DXYN: screen address, sprite address and `draw_sprite`

  /** The display byte DXYN starts at: `(Vy & 31) * 8 + (Vx & 63) >> 3`
      past DISPLAY_BUF. X is byte-aligned: the low three bits of Vx are
      dropped. */
  function ScreenAddress(vx: u8, vy: u8): (a: nat)
    ensures DISPLAY_BUF <= a < DISPLAY_BUF + 256
    ensures (a - DISPLAY_BUF) / 8 == vy % 32 && (a - DISPLAY_BUF) % 8 == (vx % 64) / 8
  {
    DISPLAY_BUF + (vy % 32) * 8 + (vx % 64) / 8
  }

  /** Where DXYN reads the sprite: FONT_DATA + I when I < 0x50, otherwise
      `chip8_rom_data + (I - 0x200)` with 16-bit arithmetic, which is the
      program's own copy of the ROM in the compiled image. */
  function SpriteSource(i: u16, romData: u16): (a: nat)
    ensures a < MEM
    ensures i < 0x50 ==> a == FONT_DATA + i
    ensures 0x200 <= i && romData + (i - 0x200) < MEM ==> a == romData + (i - 0x200)
    ensures 0x50 <= i < 0x200 && 0x200 - i <= romData ==> a == romData - (0x200 - i)
  {
    if i < 0x50 then FONT_DATA + i else Addr(romData + Addr(i + MEM - 0x200))
  }

  /** A sprite row at CHIP-8 address `i` in the ROM comes from the ROM
      bytes the image carries at label `chip8_rom_data`. */
  lemma SpriteFromRom(m: seq<u8>, rom: seq<u8>, romData: u16, i: u16)
    requires |m| == MEM && romData + |rom| <= MEM
    requires m[romData..romData + |rom|] == rom
    requires 0x200 <= i < 0x200 + |rom|
    ensures m[SpriteSource(i, romData)] == rom[i - 0x200]
  {
    assert SpriteSource(i, romData) == romData + (i - 0x200);
    assert m[romData + (i - 0x200)] == m[romData..romData + |rom|][i - 0x200];
  }

  /** The rows a sprite of `n` rows covers on screen, eight bytes apart. */
  function Rows8(m: seq<u8>, scr: nat, n: nat): (r: seq<u8>)
    requires scr + 8 * n <= |m|
    ensures |r| == n
  {
    seq(n, k requires 0 <= k < n => m[scr + 8 * k])
  }

  /** Whether address `a` is one of those rows. */
  predicate OnRow(scr: nat, n: nat, a: nat)
  {
    scr <= a < scr + 8 * n && (a - scr) % 8 == 0
  }

  /** Each screen row XORed with its sprite byte. */
  function XorRows(screen: seq<u8>, sprite: seq<u8>): (r: seq<u8>)
    requires |screen| == |sprite|
    ensures |r| == |screen|
  {
    seq(|screen|, k requires 0 <= k < |screen| => Xor(screen[k], sprite[k]))
  }

  /** No lit pixel of the sprite meets a lit pixel of the screen. */
  predicate NoCollision(screen: seq<u8>, sprite: seq<u8>)
    requires |screen| == |sprite|
  {
    forall k :: 0 <= k < |screen| ==> And(screen[k], sprite[k]) == 0
  }

  /** `draw_row` run `n` times: the sprite byte at `spr` is XORed into the
      screen byte at `scr`, the pixels both had are ORed into `hit` (the C
      register), the sprite pointer moves on by one and the screen pointer
      by 8, both with 16-bit arithmetic. The sprite byte is read before the
      screen byte is written. */
  function DrawRows(m: seq<u8>, spr: nat, scr: nat, n: nat, hit: u8): (r: (seq<u8>, u8))
    requires |m| == MEM && spr < MEM && scr < MEM
    ensures |r.0| == MEM
    decreases n
  {
    if n == 0 then (m, hit)
    else
      var s := m[spr];
      var d := m[scr];
      DrawRows(m[scr := Xor(d, s)], Addr(spr + 1), Addr(scr + 8), n - 1, Or(hit, And(d, s)))
  }

  /** Rounds of the `dec b; jr nz draw_row` loop for B = `height`: a zero
      B runs 256 rows. */
  function Rows(height: u8): (n: nat)
  {
    if height == 0 then 256 else height
  }

  /** `draw_sprite` with HL = `sprite`, DE = `screen`, B = `height`: the
      memory after `DrawRows`, and A = 1 if any pixel collided, else 0. */
  method DrawSprite(mem: array<u8>, sprite: nat, screen: nat, height: u8) returns (vf: u8)
    requires mem.Length == MEM && sprite < MEM && screen < MEM
    modifies mem
    ensures var (m, hit) := DrawRows(old(mem[..]), sprite, screen, Rows(height), 0);
      mem[..] == m && vf == if hit == 0 then 0 else 1
  {
    var c: u8 := 0;
    var hl: nat, de: nat, b: int := sprite, screen, height;
    ghost var k := 0;
    var more := true;
    while more
      invariant 0 <= k <= Rows(height) && hl < MEM && de < MEM
      invariant more <==> k < Rows(height)
      invariant b == if k == 0 then height else Rows(height) - k
      invariant DrawRows(mem[..], hl, de, Rows(height) - k, c) == DrawRows(old(mem[..]), sprite, screen, Rows(height), 0)
      decreases Rows(height) - k
    {
      ghost var before := mem[..];
      var s := mem[hl];
      var d := mem[de];
      mem[de] := Xor(d, s);
      assert mem[..] == before[de := Xor(d, s)];
      c := Or(c, And(d, s));
      hl, de := Addr(hl + 1), Addr(de + 8);
      b := if b == 0 then 0xFF else b - 1;
      k := k + 1;
      more := b != 0;
    }
    vf := if c == 0 then 0 else 1;
  }

  /** The rows after the first are the rows of a sprite one row shorter
      that starts eight bytes further on. */
  lemma Rows8Cons(m: seq<u8>, scr: nat, n: nat)
    requires n > 0 && scr + 8 * n <= |m|
    ensures Rows8(m, scr, n) == [m[scr]] + Rows8(m, scr + 8, n - 1)
  {
    assert forall k :: 1 <= k < n ==> Rows8(m, scr, n)[k] == Rows8(m, scr + 8, n - 1)[k - 1];
  }

  /** A row of the shorter sprite is a row of the longer one. */
  lemma OnRowStep(scr: nat, n: nat, a: nat)
    requires n > 0 && OnRow(scr + 8, n - 1, a)
    ensures OnRow(scr, n, a) && a != scr
  {
    assert a - scr == (a - (scr + 8)) + 8;
  }

  /** `draw_row` writes only to the screen rows it covers: every other byte
      of memory, the sprite's own included, is left alone. */
  lemma {:induction false} DrawRowsFrame(m: seq<u8>, spr: nat, scr: nat, n: nat, hit: u8)
    requires |m| == MEM && spr < MEM && scr < MEM && scr + 8 * n <= MEM
    ensures forall a :: 0 <= a < MEM && !OnRow(scr, n, a) ==> DrawRows(m, spr, scr, n, hit).0[a] == m[a]
    decreases n
  {
    if n > 0 {
      var s, d := m[spr], m[scr];
      var m1 := m[scr := Xor(d, s)];
      var scr1 := Addr(scr + 8);
      var r := DrawRows(m, spr, scr, n, hit).0;
      assert r == DrawRows(m1, Addr(spr + 1), scr1, n - 1, Or(hit, And(d, s))).0;
      DrawRowsFrame(m1, Addr(spr + 1), scr1, n - 1, Or(hit, And(d, s)));
      forall a | 0 <= a < MEM && !OnRow(scr, n, a)
        ensures r[a] == m[a]
      {
        if n > 1 && OnRow(scr1, n - 1, a) {
          OnRowStep(scr, n, a);
        }
      }
    }
  }

  lemma XorRowsCons(x: u8, y: u8, screen: seq<u8>, sprite: seq<u8>)
    requires |screen| == |sprite|
    ensures XorRows([x] + screen, [y] + sprite) == [Xor(x, y)] + XorRows(screen, sprite)
  {
    assert forall k :: 1 <= k <= |screen| ==>
      XorRows([x] + screen, [y] + sprite)[k] == XorRows(screen, sprite)[k - 1];
  }

  lemma NoCollisionCons(x: u8, y: u8, screen: seq<u8>, sprite: seq<u8>)
    requires |screen| == |sprite|
    ensures NoCollision([x] + screen, [y] + sprite) <==> And(x, y) == 0 && NoCollision(screen, sprite)
  {
    if And(x, y) == 0 && NoCollision(screen, sprite) {
      assert ([x] + screen)[0] == x && ([y] + sprite)[0] == y;
      forall k | 1 <= k <= |screen| ensures And(([x] + screen)[k], ([y] + sprite)[k]) == 0 {
        assert ([x] + screen)[k] == screen[k - 1] && ([y] + sprite)[k] == sprite[k - 1];
      }
    }
    if NoCollision([x] + screen, [y] + sprite) {
      assert And(([x] + screen)[0], ([y] + sprite)[0]) == 0;
      forall k | 0 <= k < |screen| ensures And(screen[k], sprite[k]) == 0 {
        assert ([x] + screen)[k + 1] == screen[k] && ([y] + sprite)[k + 1] == sprite[k];
      }
    }
  }

  /** The first row drawn is the screen byte XOR the sprite byte read
      before it, and later rows do not touch it. */
  lemma DrawRowsFirst(m: seq<u8>, spr: nat, scr: nat, n: nat, hit: u8)
    requires |m| == MEM && n > 0 && spr < MEM && scr + 8 * n <= MEM
    ensures DrawRows(m, spr, scr, n, hit).0[scr] == Xor(m[scr], m[spr])
  {
    var s, d := m[spr], m[scr];
    var m1 := m[scr := Xor(d, s)];
    var hit1 := Or(hit, And(d, s));
    assert DrawRows(m, spr, scr, n, hit).0 == DrawRows(m1, Addr(spr + 1), Addr(scr + 8), n - 1, hit1).0;
    DrawRowsFrame(m1, Addr(spr + 1), Addr(scr + 8), n - 1, hit1);
    assert !OnRow(Addr(scr + 8), n - 1, scr);
  }

  /** A sprite whose bytes lie apart from the screen rows it covers, none of
      them wrapping: each row becomes the screen row XOR the sprite byte. */
  lemma DrawRowsXor(m: seq<u8>, spr: nat, scr: nat, n: nat, hit: u8)
    requires |m| == MEM && spr < MEM && scr < MEM && spr + n <= MEM && scr + 8 * n <= MEM
    requires spr + n <= scr || scr + 8 * n <= spr
    ensures Rows8(DrawRows(m, spr, scr, n, hit).0, scr, n) == XorRows(Rows8(m, scr, n), m[spr..spr + n])
  {
    DrawRowsXorTo(m, spr, scr, n, hit, spr + n);
  }

  /** `DrawRowsXor` with the end of the sprite bytes named, so that the
      induction step does not have to rewrite `spr + 1 + (n - 1)`. */
  lemma {:induction false} DrawRowsXorTo(m: seq<u8>, spr: nat, scr: nat, n: nat, hit: u8, end: nat)
    requires |m| == MEM && spr < MEM && scr < MEM && end == spr + n && end <= MEM && scr + 8 * n <= MEM
    requires end <= scr || scr + 8 * n <= spr
    ensures Rows8(DrawRows(m, spr, scr, n, hit).0, scr, n) == XorRows(Rows8(m, scr, n), m[spr..end])
    decreases n, 1
  {
    if n > 0 {
      var s, d := m[spr], m[scr];
      var r := DrawRows(m, spr, scr, n, hit).0;
      var rest, tail := Rows8(m, scr + 8, n - 1), m[spr + 1..end];
      DrawRowsFirst(m, spr, scr, n, hit);
      if n > 1 {
        DrawRowsLater(m, spr, scr, n, hit, end);
        FirstRowWritten(m, spr, scr, n, end, Xor(d, s));
      } else {
        assert |XorRows(rest, tail)| == 0;
      }
      assert Rows8(r, scr + 8, n - 1) == XorRows(rest, tail);
      calc {
        Rows8(r, scr, n);
      == { Rows8Cons(r, scr, n); }
        [r[scr]] + Rows8(r, scr + 8, n - 1);
      ==
        [Xor(d, s)] + XorRows(rest, tail);
      == { XorRowsCons(d, s, rest, tail); }
        XorRows([d] + rest, [s] + tail);
      == { Rows8Cons(m, scr, n); assert m[spr..end] == [s] + tail; }
        XorRows(Rows8(m, scr, n), m[spr..end]);
      }
    }
  }

  /** The rows after the first are drawn as a sprite one row shorter from
      the next sprite byte, over a screen whose first row alone has changed. */
  lemma {:induction false} DrawRowsLater(m: seq<u8>, spr: nat, scr: nat, n: nat, hit: u8, end: nat)
    requires |m| == MEM && spr < MEM && scr < MEM && end == spr + n && end <= MEM && scr + 8 * n <= MEM
    requires end <= scr || scr + 8 * n <= spr
    requires n > 1
    ensures var m1 := m[scr := Xor(m[scr], m[spr])];
      Rows8(DrawRows(m, spr, scr, n, hit).0, scr + 8, n - 1) == XorRows(Rows8(m1, scr + 8, n - 1), m1[spr + 1..end])
    decreases n, 0
  {
    var s, d := m[spr], m[scr];
    DrawRowsUnfold(m, spr, scr, n, hit);
    DrawRowsXorTo(m[scr := Xor(d, s)], spr + 1, scr + 8, n - 1, Or(hit, And(d, s)), end);
  }

  /** Writing the first screen row changes neither the later rows nor the
      later sprite bytes. */
  lemma FirstRowWritten(m: seq<u8>, spr: nat, scr: nat, n: nat, end: nat, v: u8)
    requires |m| == MEM && end == spr + n && end <= MEM && scr + 8 * n <= MEM && n > 0
    requires end <= scr || scr + 8 * n <= spr
    ensures Rows8(m[scr := v], scr + 8, n - 1) == Rows8(m, scr + 8, n - 1)
    ensures m[scr := v][spr + 1..end] == m[spr + 1..end]
  {
    Rows8Update(m, scr + 8, n - 1, scr, v);
  }

  /** One round of the draw loop, unfolded. */
  lemma DrawRowsUnfold(m: seq<u8>, spr: nat, scr: nat, n: nat, hit: u8)
    requires |m| == MEM && spr + 1 < MEM && scr + 8 < MEM && n > 0
    ensures DrawRows(m, spr, scr, n, hit)
         == DrawRows(m[scr := Xor(m[scr], m[spr])], spr + 1, scr + 8, n - 1, Or(hit, And(m[scr], m[spr])))
  {
  }

  /** Writing a byte that is not on the rows leaves the rows alone. */
  lemma Rows8Update(m: seq<u8>, scr: nat, n: nat, a: nat, v: u8)
    requires scr + 8 * n <= |m| && a < |m| && !OnRow(scr, n, a)
    ensures Rows8(m[a := v], scr, n) == Rows8(m, scr, n)
  {
    forall k | 0 <= k < n
      ensures Rows8(m[a := v], scr, n)[k] == Rows8(m, scr, n)[k]
    {
      assert OnRow(scr, n, scr + 8 * k);
    }
  }

  /** Under the same conditions the collision flag ends clear exactly when
      it started clear and no sprite pixel met a lit screen pixel. */
  lemma DrawRowsHit(m: seq<u8>, spr: nat, scr: nat, n: nat, hit: u8)
    requires |m| == MEM && spr < MEM && scr < MEM && spr + n <= MEM && scr + 8 * n <= MEM
    requires spr + n <= scr || scr + 8 * n <= spr
    ensures DrawRows(m, spr, scr, n, hit).1 == 0 <==> hit == 0 && NoCollision(Rows8(m, scr, n), m[spr..spr + n])
  {
    DrawRowsHitTo(m, spr, scr, n, hit, spr + n);
  }

  /** `DrawRowsHit` with the end of the sprite bytes named. */
  lemma {:induction false} DrawRowsHitTo(m: seq<u8>, spr: nat, scr: nat, n: nat, hit: u8, end: nat)
    requires |m| == MEM && spr < MEM && scr < MEM && end == spr + n && end <= MEM && scr + 8 * n <= MEM
    requires end <= scr || scr + 8 * n <= spr
    ensures DrawRows(m, spr, scr, n, hit).1 == 0 <==> hit == 0 && NoCollision(Rows8(m, scr, n), m[spr..end])
    decreases n, 1
  {
    if n > 0 {
      var s, d := m[spr], m[scr];
      var hit1 := Or(hit, And(d, s));
      var rest, tail := Rows8(m, scr + 8, n - 1), m[spr + 1..end];
      assert DrawRows(m, spr, scr, n, hit).1 == 0 <==> hit1 == 0 && NoCollision(rest, tail) by {
        if n > 1 {
          DrawRowsHitLater(m, spr, scr, n, hit, end);
        }
      }
      assert hit1 == 0 <==> hit == 0 && And(d, s) == 0 by {
        OrBitsZero(hit, And(d, s), 8);
      }
      assert NoCollision(Rows8(m, scr, n), m[spr..end]) <==> And(d, s) == 0 && NoCollision(rest, tail) by {
        Rows8Cons(m, scr, n);
        assert m[spr..end] == [s] + tail;
        NoCollisionCons(d, s, rest, tail);
      }
    }
  }

  /** The flag after the later rows: clear exactly when it was clear after
      the first row and no later row collided. */
  lemma {:induction false} DrawRowsHitLater(m: seq<u8>, spr: nat, scr: nat, n: nat, hit: u8, end: nat)
    requires |m| == MEM && spr < MEM && scr < MEM && end == spr + n && end <= MEM && scr + 8 * n <= MEM
    requires end <= scr || scr + 8 * n <= spr
    requires n > 1
    ensures DrawRows(m, spr, scr, n, hit).1 == 0
        <==> Or(hit, And(m[scr], m[spr])) == 0 && NoCollision(Rows8(m, scr + 8, n - 1), m[spr + 1..end])
    decreases n, 0
  {
    var s, d := m[spr], m[scr];
    var m1 := m[scr := Xor(d, s)];
    var hit1 := Or(hit, And(d, s));
    DrawRowsUnfold(m, spr, scr, n, hit);
    DrawRowsHitTo(m1, spr + 1, scr + 8, n - 1, hit1, end);
    FirstRowWritten(m, spr, scr, n, end, Xor(d, s));
  }

  /** XORing the same sprite bytes in twice gives back the screen rows. */
  lemma XorRowsTwice(screen: seq<u8>, sprite: seq<u8>)
    requires |screen| == |sprite|
    ensures XorRows(XorRows(screen, sprite), sprite) == screen
  {
    forall k | 0 <= k < |screen|
      ensures XorRows(XorRows(screen, sprite), sprite)[k] == screen[k]
    {
      XorBitsTwice(screen[k], sprite[k], 8);
    }
  }

  /** Two memories that agree on the screen rows and everywhere else are
      the same. */
  lemma SameRowsSameMemory(m: seq<u8>, m': seq<u8>, scr: nat, n: nat)
    requires |m| == MEM && |m'| == MEM && scr + 8 * n <= MEM
    requires Rows8(m, scr, n) == Rows8(m', scr, n)
    requires forall a :: 0 <= a < MEM && !OnRow(scr, n, a) ==> m[a] == m'[a]
    ensures m == m'
  {
    forall a | 0 <= a < MEM
      ensures m[a] == m'[a]
    {
      if OnRow(scr, n, a) {
        var k := (a - scr) / 8;
        assert a == scr + 8 * k;
        assert Rows8(m, scr, n)[k] == Rows8(m', scr, n)[k];
      }
    }
  }

  /** Drawing the same sprite twice at the same place restores memory. */
  lemma DrawTwice(m: seq<u8>, spr: nat, scr: nat, n: nat)
    requires |m| == MEM && spr < MEM && scr < MEM && spr + n <= MEM && scr + 8 * n <= MEM
    requires spr + n <= scr || scr + 8 * n <= spr
    ensures var once := DrawRows(m, spr, scr, n, 0).0; DrawRows(once, spr, scr, n, 0).0 == m
  {
    var once := DrawRows(m, spr, scr, n, 0).0;
    var twice := DrawRows(once, spr, scr, n, 0).0;
    var sprite := m[spr..spr + n];
    assert once[spr..spr + n] == sprite by {
      DrawRowsFrame(m, spr, scr, n, 0);
      forall k | 0 <= k < n
        ensures once[spr..spr + n][k] == sprite[k]
      {
        assert !OnRow(scr, n, spr + k);
      }
    }
    assert Rows8(twice, scr, n) == Rows8(m, scr, n) by {
      DrawRowsXor(m, spr, scr, n, 0);
      DrawRowsXor(once, spr, scr, n, 0);
      XorRowsTwice(Rows8(m, scr, n), sprite);
    }
    assert forall a :: 0 <= a < MEM && !OnRow(scr, n, a) ==> twice[a] == m[a] by {
      DrawRowsFrame(m, spr, scr, n, 0);
      DrawRowsFrame(once, spr, scr, n, 0);
    }
    SameRowsSameMemory(twice, m, scr, n);
  }

  /** Rows of a DXYN sprite are not clipped or wrapped at the bottom edge:
      a sprite started on the last screen line puts its second row at the
      first byte of the font area. */
  lemma SecondRowPastBottom(vx: u8, vy: u8)
    requires vy % 32 == 31 && vx % 64 < 8
    ensures ScreenAddress(vx, vy) + 8 == FONT_DATA
  {
  }

  /** DXYN: the screen address from Vx and Vy, the sprite address from I,
      `draw_sprite` for `n` rows, and the collision flag into VF. `romData`
      is the address of label `chip8_rom_data`. The stack bytes that DXYN
      writes (its `push hl`, the return address of `call draw_sprite` and
      the pushes inside it) and the `refresh_display` call that follows
      are not modelled. */
  method Drw(mem: array<u8>, x: nat, y: nat, n: u8, romData: u16)
    requires mem.Length == MEM && x < 16 && y < 16 && n < 16
    modifies mem
    ensures var m := old(mem[..]);
      var (r, hit) := DrawRows(m, SpriteSource(RegI(m), romData),
                               ScreenAddress(m[CHIP8_V0 + x], m[CHIP8_V0 + y]), Rows(n), 0);
      mem[..] == r[CHIP8_V0 + 15 := if hit == 0 then 0 else 1]
  {
    var screen := ScreenAddress(mem[CHIP8_V0 + x], mem[CHIP8_V0 + y]);
    var i := mem[CHIP8_I] as int + 0x100 * (mem[CHIP8_I + 1] as int);
    assert i == RegI(mem[..]);
    var sprite := SpriteSource(i, romData);
    var vf := DrawSprite(mem, sprite, screen, n);
    mem[CHIP8_V0 + 15] := vf;
  }

  // ---------------------------------------------------------------------
  // FX29 and FX33

  /** FX29: I becomes `(Vx & 0xF) * 5`, the offset of the glyph of the low
      digit of Vx in the font; DXYN adds FONT_DATA itself. */
  function FontOffset(v: u8): (i: u16)
    ensures i < 0x50 && i % 5 == 0 && i / 5 == v % 16
  {
    (v % 16) * 5
  }

  /** FX29: stores `FontOffset(Vx)` in I, low byte first. */
  method LoadFontAddress(mem: array<u8>, x: nat)
    requires mem.Length == MEM && x < 16
    modifies mem
    ensures mem[..] == old(mem[..])[CHIP8_I := FontOffset(old(mem[CHIP8_V0 + x]))][CHIP8_I + 1 := 0]
    ensures RegI(mem[..]) == FontOffset(old(mem[CHIP8_V0 + x]))
  {
    var offset := FontOffset(mem[CHIP8_V0 + x]);
    mem[CHIP8_I] := offset;
    mem[CHIP8_I + 1] := 0;
  }

  /** After `init` has copied the font, FX29 then DXYN draws the five rows of
      the glyph for the low digit of Vx. */
  lemma FontGlyph(m: seq<u8>, v: u8, romData: u16, j: nat)
    requires |m| == MEM && m[FONT_DATA..FONT_DATA + 80] == FONT && j < 5
    ensures m[SpriteSource(FontOffset(v), romData) + j] == FONT[5 * (v % 16) + j]
  {
    assert m[FONT_DATA + FontOffset(v) + j] == m[FONT_DATA..FONT_DATA + 80][FontOffset(v) + j];
  }

  /** `ld b,0` then `cp unit; jr c,done; sub unit; inc b; jr loop`
      (`bcd_hundreds`, `bcd_tens_loop`): B counts how often `unit` could be
      taken from A, and A keeps what is left, less than `unit`. */
  method RepeatedSubtract(acc: nat, unit: nat) returns (b: nat, a: nat)
    requires unit > 0
    ensures b * unit + a == acc && a < unit
  {
    b, a := 0, acc;
    while a >= unit
      invariant b * unit + a == acc
    {
      a := a - unit;
      b := b + 1;
    }
  }

  /** FX33: Vx's hundreds, tens and ones digits are stored at
      `RamAddress(I)` and the two bytes after it. */
  method StoreBcd(mem: array<u8>, x: nat)
    requires mem.Length == MEM && x < 16
    modifies mem
    ensures var v := old(mem[CHIP8_V0 + x]); var a := RamAddress(RegI(old(mem[..])));
      mem[..] == old(mem[..])[a := v / 100][Addr(a + 1) := v % 100 / 10][Addr(a + 2) := v % 10]
  {
    var v := mem[CHIP8_V0 + x];
    var i := mem[CHIP8_I] as int + 0x100 * (mem[CHIP8_I + 1] as int);
    assert i == RegI(mem[..]);
    var hl := RamAddress(i);
    var hundreds, rest := RepeatedSubtract(v, 100);
    var tens, ones := RepeatedSubtract(rest, 10);
    Digits(v, hundreds, rest, tens, ones);
    ghost var m0 := mem[..];
    mem[hl] := hundreds;
    assert mem[..] == m0[hl := v / 100];
    ghost var m1 := mem[..];
    hl := Addr(hl + 1);
    mem[hl] := tens;
    assert mem[..] == m1[hl := v % 100 / 10];
    ghost var m2 := mem[..];
    hl := Addr(hl + 1);
    mem[hl] := ones;
    assert mem[..] == m2[hl := v % 10];
  }

  /** The quotients and remainders of the two repeated subtractions are the
      decimal digits. */
  lemma Digits(v: nat, hundreds: nat, rest: nat, tens: nat, ones: nat)
    requires hundreds * 100 + rest == v && rest < 100
    requires tens * 10 + ones == rest && ones < 10
    ensures hundreds == v / 100 && tens == v % 100 / 10 && ones == v % 10
  {
    assert rest == v % 100;
  }
}
