/** The CHIP-8 front end: opcode fields, the linear ROM parser and the opcode
    classification used by the disassembler (src/chip8.rs). */
module Chip8 {
  import opened Types

  /** CHIP-8 programs are loaded at this address. */
  const LOAD_ADDR: u16 := 0x200

  /** One 16-bit opcode and the CHIP-8 address it was read from. */
  datatype Instruction = Instruction(opcode: u16, addr: u16) {

    /** The four nibbles, most significant first (`>> 12 & 0xF` ... `& 0xF`). */
    function Nibbles(): (r: (u8, u8, u8, u8))
      ensures r.0 < 16 && r.1 < 16 && r.2 < 16 && r.3 < 16
      ensures r.0 * 0x1000 + r.1 * 0x100 + r.2 * 0x10 + r.3 == opcode
    {
      NibbleSum(opcode);
      (opcode / 0x1000 % 0x10, opcode / 0x100 % 0x10, opcode / 0x10 % 0x10, opcode % 0x10)
    }

    /** Register X: `(opcode >> 8) & 0xF`. */
    function X(): (r: u8)
      ensures r == Nibbles().1
    {
      opcode / 0x100 % 0x10
    }

    /** Register Y: `(opcode >> 4) & 0xF`. */
    function Y(): (r: u8)
      ensures r == Nibbles().2
    {
      opcode / 0x10 % 0x10
    }

    /** The last nibble: `opcode & 0xF`. */
    function N(): (r: u8)
      ensures r == Nibbles().3
    {
      opcode % 0x10
    }

    /** The low byte: `opcode & 0xFF`. */
    function NN(): (r: u8)
      ensures r == Nibbles().2 * 0x10 + Nibbles().3
      ensures r == Lo(opcode)
    {
      opcode % 0x100
    }

    /** The 12-bit address field: `opcode & 0xFFF`. */
    function NNN(): (r: u16)
      ensures r <= 0xFFF
      ensures r == Nibbles().1 * 0x100 + NN()
      ensures Nibbles().0 * 0x1000 + r == opcode
    {
      opcode % 0x1000
    }

    /** `1NNN` whose target is its own address: the parser's end-of-code mark. */
    predicate IsJumpToSelf()
    {
      Nibbles().0 == 1 && NNN() == addr
    }
  }

  /** Splitting a 16-bit value into nibbles loses nothing. */
  lemma NibbleSum(a: u16)
    ensures (a / 0x1000 % 0x10) * 0x1000 + (a / 0x100 % 0x10) * 0x100 + (a / 0x10 % 0x10) * 0x10 + a % 0x10 == a
  {
    var b := a / 0x10;
    var c := b / 0x10;
    assert a == 0x10 * b + a % 0x10;
    assert b == 0x10 * c + b % 0x10;
    assert c == 0x10 * (c / 0x10) + c % 0x10;
    assert a / 0x100 == c;
    assert a / 0x1000 == c / 0x10;
  }

  /** What `parse` returns for `rom`, stated clause by clause:
      instruction k sits at 0x200 + 2k and packs bytes 2k and 2k+1 big-endian;
      no instruction but the last jumps to itself; and the list is shorter
      than |rom| / 2 only because its last instruction jumps to itself. */
  ghost predicate IsParseOf(rom: seq<u8>, insts: seq<Instruction>)
  {
    && |insts| <= |rom| / 2
    && (forall k :: 0 <= k < |insts| ==>
          insts[k].addr == LOAD_ADDR + 2 * k && insts[k].opcode == rom[2 * k] as int * 0x100 + rom[2 * k + 1])
    && (forall k :: 0 <= k < |insts| - 1 ==> !insts[k].IsJumpToSelf())
    && (|insts| < |rom| / 2 ==> |insts| > 0 && insts[|insts| - 1].IsJumpToSelf())
  }

  /** The instruction `parse` reads at byte offset i. */
  function InstructionAt(rom: seq<u8>, i: nat): (inst: Instruction)
    requires i + 1 < |rom| <= 0xFE00
    ensures inst.addr == LOAD_ADDR + i
    ensures inst.Nibbles().0 == rom[i] / 0x10 && inst.NN() == rom[i + 1]
  {
    Instruction(rom[i] as int * 0x100 + rom[i + 1], LOAD_ADDR + i)
  }

  /** Reference definition of `parse`, by recursion on the byte offset. */
  function ParsedFrom(rom: seq<u8>, i: nat): seq<Instruction>
    requires |rom| <= 0xFE00
    decreases |rom| - i
  {
    if i + 1 < |rom| then
      var inst := InstructionAt(rom, i);
      if inst.IsJumpToSelf() then [inst] else [inst] + ParsedFrom(rom, i + 2)
    else []
  }

  function Parsed(rom: seq<u8>): seq<Instruction>
    requires |rom| <= 0xFE00
  {
    ParsedFrom(rom, 0)
  }

  /** `parse` (src/chip8.rs:52-76): a while loop over the byte offset that
      pushes one instruction per byte pair and breaks after a jump to self. */
  method Parse(rom: seq<u8>) returns (insts: seq<Instruction>)
    requires |rom| <= 0xFE00
    ensures IsParseOf(rom, insts) && insts == Parsed(rom)
  {
    insts := [];
    var i := 0;
    while i + 1 < |rom|
      invariant i == 2 * |insts| && i <= |rom|
      invariant forall k :: 0 <= k < |insts| ==>
        insts[k].addr == LOAD_ADDR + 2 * k && insts[k].opcode == rom[2 * k] as int * 0x100 + rom[2 * k + 1]
      invariant forall k :: 0 <= k < |insts| ==> !insts[k].IsJumpToSelf()
    {
      var opcode := rom[i] as int * 0x100 + rom[i + 1];
      var addr := LOAD_ADDR + i;
      insts := insts + [Instruction(opcode, addr)];
      var nibble0 := opcode / 0x1000 % 0x10;
      if nibble0 == 0x1 {
        var target := opcode % 0x1000;
        if target == addr {
          assert insts[|insts| - 1].IsJumpToSelf();
          break;
        }
      }
      i := i + 2;
    }
    assert IsParseOf(rom, insts) by {
      assert |insts| <= |rom| / 2;
      assert forall k :: 0 <= k < |insts| - 1 ==> !insts[k].IsJumpToSelf();
    }
    ParsedIsParse(rom);
    ParseUnique(rom, insts, Parsed(rom));
  }

  /** The reference definition satisfies the characterisation, from any
      even offset on. */
  lemma {:induction false} ParsedFromIsParse(rom: seq<u8>, i: nat)
    requires |rom| <= 0xFE00 && i % 2 == 0 && i <= |rom|
    ensures var s := ParsedFrom(rom, i);
      && 2 * |s| <= |rom| - i
      && (forall k :: 0 <= k < |s| ==> s[k] == InstructionAt(rom, i + 2 * k))
      && (forall k :: 0 <= k < |s| - 1 ==> !s[k].IsJumpToSelf())
      && (2 * |s| < |rom| - i - 1 ==> |s| > 0 && s[|s| - 1].IsJumpToSelf())
    decreases |rom| - i
  {
    if i + 1 < |rom| {
      var inst := InstructionAt(rom, i);
      if !inst.IsJumpToSelf() {
        ParsedFromIsParse(rom, i + 2);
        var t := ParsedFrom(rom, i + 2);
        var s := ParsedFrom(rom, i);
        assert s == [inst] + t;
        forall k | 0 <= k < |s|
          ensures s[k] == InstructionAt(rom, i + 2 * k)
        {
          if k > 0 { assert s[k] == t[k - 1]; }
        }
      }
    }
  }

  lemma ParsedIsParse(rom: seq<u8>)
    requires |rom| <= 0xFE00
    ensures IsParseOf(rom, Parsed(rom))
  {
    ParsedFromIsParse(rom, 0);
    var s := Parsed(rom);
    forall k | 0 <= k < |s|
      ensures s[k].addr == LOAD_ADDR + 2 * k && s[k].opcode == rom[2 * k] as int * 0x100 + rom[2 * k + 1]
    {
      assert s[k] == InstructionAt(rom, 2 * k);
    }
  }

  /** The characterisation has exactly one solution, so `Parse` computes
      `Parsed`. */
  lemma ParseUnique(rom: seq<u8>, a: seq<Instruction>, b: seq<Instruction>)
    requires IsParseOf(rom, a) && IsParseOf(rom, b)
    ensures a == b
  {
    assert forall k :: 0 <= k < |a| && k < |b| ==> a[k] == b[k];
    assert |a| == |b|;
  }

  /** A trailing odd byte is never decoded: `parse` returns the same list
      with or without it. */
  lemma ParseIgnoresTrailingByte(rom: seq<u8>, insts: seq<Instruction>)
    requires |rom| <= 0xFE00 && |rom| % 2 == 1
    requires IsParseOf(rom, insts)
    ensures IsParseOf(rom[..|rom| - 1], insts)
  {
    var r := rom[..|rom| - 1];
    assert |r| / 2 == |rom| / 2;
    forall k | 0 <= k < |insts|
      ensures insts[k].opcode == r[2 * k] as int * 0x100 + r[2 * k + 1]
    {
      assert 2 * k + 1 < |r|;
    }
  }

  /** The instruction forms `disasm_instruction` tells apart; operand
      fields are the ones its format strings print (Shr/Shl keep Y too, so
      that the opcode can be rebuilt). */
  datatype Form =
    | Cls | Ret | Sys(nnn: u16) | Jp(nnn: u16) | Call(nnn: u16)
    | SeByte(x: u8, nn: u8) | SneByte(x: u8, nn: u8) | SeReg(x: u8, y: u8)
    | LdByte(x: u8, nn: u8) | AddByte(x: u8, nn: u8)
    | LdReg(x: u8, y: u8) | Or(x: u8, y: u8) | And(x: u8, y: u8) | Xor(x: u8, y: u8)
    | AddReg(x: u8, y: u8) | Sub(x: u8, y: u8) | Shr(x: u8, y: u8) | Subn(x: u8, y: u8)
    | Shl(x: u8, y: u8) | SneReg(x: u8, y: u8)
    | LdI(nnn: u16) | JpV0(nnn: u16) | Rnd(x: u8, nn: u8) | Drw(x: u8, y: u8, n: u8)
    | Skp(x: u8) | Sknp(x: u8)
    | LdVxDt(x: u8) | LdVxK(x: u8) | LdDtVx(x: u8) | LdStVx(x: u8) | AddIVx(x: u8)
    | LdFVx(x: u8) | LdBVx(x: u8) | StoreRegs(x: u8) | LoadRegs(x: u8)
    | Unknown(opcode: u16)

  /** The nibble patterns that `disasm_instruction` prints as `???`. */
  predicate UnrecognisedNibbles(n0: u8, n2: u8, n3: u8)
  {
    || (n0 == 0x5 && n3 != 0x0)
    || (n0 == 0x8 && (0x8 <= n3 <= 0xD || n3 == 0xF))
    || (n0 == 0x9 && n3 != 0x0)
    || (n0 == 0xE && (n2, n3) != (0x9, 0xE) && (n2, n3) != (0xA, 0x1))
    || (n0 == 0xF && (n2, n3) !in {(0x0, 0x7), (0x0, 0xA), (0x1, 0x5), (0x1, 0x8), (0x1, 0xE),
                                   (0x2, 0x9), (0x3, 0x3), (0x5, 0x5), (0x6, 0x5)})
  }

  /** The opcodes that `disasm_instruction` prints as `???`. */
  predicate Unrecognised(inst: Instruction)
  {
    var (n0, _, n2, n3) := inst.Nibbles();
    UnrecognisedNibbles(n0, n2, n3)
  }

  /** The arm of `disasm_instruction` (src/chip8.rs:89-130) that matches,
      tried in source order. */
  function Classify(inst: Instruction): (f: Form)
    ensures f.Unknown? <==> Unrecognised(inst)
    ensures f.Unknown? ==> f.opcode == inst.opcode
  {
    var (n0, n1, n2, n3) := inst.Nibbles();
    Decode(n0, n1, n2, n3)
  }

  /** The `0NNN` group: 00E0 is CLS, 00EE is RET, every other opcode with a
      zero top nibble is SYS. */
  lemma ClassifyZeroGroup(inst: Instruction)
    ensures Classify(inst) == Cls <==> inst.opcode == 0x00E0
    ensures Classify(inst) == Ret <==> inst.opcode == 0x00EE
    ensures Classify(inst).Sys? <==> inst.Nibbles().0 == 0 && inst.opcode != 0x00E0 && inst.opcode != 0x00EE
  {
    var (n0, n1, n2, n3) := inst.Nibbles();
    assert inst.opcode == 0x00E0 <==> (n0, n1, n2, n3) == (0, 0, 0xE, 0);
    assert inst.opcode == 0x00EE <==> (n0, n1, n2, n3) == (0, 0, 0xE, 0xE);
  }

  /** The arms of `disasm_instruction` on the four nibbles; the operand
      fields X, Y, N, NN and NNN are the nibbles put together. */
  function Decode(n0: u8, x: u8, y: u8, n: u8): (f: Form)
    requires n0 < 16 && x < 16 && y < 16 && n < 16
    ensures f.Unknown? <==> UnrecognisedNibbles(n0, y, n)
    ensures f.Unknown? ==> f.opcode == n0 * 0x1000 + x * 0x100 + y * 0x10 + n
  {
    var nn := y * 0x10 + n;
    var nnn := x * 0x100 + nn;
    var opcode := n0 * 0x1000 + nnn;
    match n0
    case 0x0 => if (x, y, n) == (0x0, 0xE, 0x0) then Cls else if (x, y, n) == (0x0, 0xE, 0xE) then Ret else Sys(nnn)
    case 0x1 => Jp(nnn)
    case 0x2 => Call(nnn)
    case 0x3 => SeByte(x, nn)
    case 0x4 => SneByte(x, nn)
    case 0x5 => if n == 0x0 then SeReg(x, y) else Unknown(opcode)
    case 0x6 => LdByte(x, nn)
    case 0x7 => AddByte(x, nn)
    case 0x8 => DecodeAlu(x, y, n, opcode)
    case 0x9 => if n == 0x0 then SneReg(x, y) else Unknown(opcode)
    case 0xA => LdI(nnn)
    case 0xB => JpV0(nnn)
    case 0xC => Rnd(x, nn)
    case 0xD => Drw(x, y, n)
    case 0xE => if (y, n) == (0x9, 0xE) then Skp(x) else if (y, n) == (0xA, 0x1) then Sknp(x) else Unknown(opcode)
    case _ => DecodeMisc(x, y, n, opcode)
  }

  /** The `8XYN` arms, tried in source order. */
  function DecodeAlu(x: u8, y: u8, n: u8, opcode: u16): (f: Form)
    ensures f.Unknown? <==> (0x8 <= n <= 0xD || n >= 0xF)
    ensures f.Unknown? ==> f.opcode == opcode
  {
    match n
    case 0x0 => LdReg(x, y)
    case 0x1 => Or(x, y)
    case 0x2 => And(x, y)
    case 0x3 => Xor(x, y)
    case 0x4 => AddReg(x, y)
    case 0x5 => Sub(x, y)
    case 0x6 => Shr(x, y)
    case 0x7 => Subn(x, y)
    case 0xE => Shl(x, y)
    case _ => Unknown(opcode)
  }

  /** The `FXNN` arms, tried in source order. */
  function DecodeMisc(x: u8, y: u8, n: u8, opcode: u16): (f: Form)
    ensures f.Unknown? <==> (y, n) !in {(0x0, 0x7), (0x0, 0xA), (0x1, 0x5), (0x1, 0x8), (0x1, 0xE),
                                         (0x2, 0x9), (0x3, 0x3), (0x5, 0x5), (0x6, 0x5)}
    ensures f.Unknown? ==> f.opcode == opcode
  {
    match (y, n)
    case (0x0, 0x7) => LdVxDt(x)
    case (0x0, 0xA) => LdVxK(x)
    case (0x1, 0x5) => LdDtVx(x)
    case (0x1, 0x8) => LdStVx(x)
    case (0x1, 0xE) => AddIVx(x)
    case (0x2, 0x9) => LdFVx(x)
    case (0x3, 0x3) => LdBVx(x)
    case (0x5, 0x5) => StoreRegs(x)
    case (0x6, 0x5) => LoadRegs(x)
    case _ => Unknown(opcode)
  }

  /** The operand fields of a form fit their nibbles, and the form is one
      that `Classify` can produce (SYS 0E0 and SYS 0EE are shadowed by CLS
      and RET; an Unknown must carry an unrecognised opcode). */
  predicate WellFormed(f: Form)
  {
    match f
    case Cls => true
    case Ret => true
    case Sys(a) => a <= 0xFFF && a != 0x0E0 && a != 0x0EE
    case Jp(a) => a <= 0xFFF
    case Call(a) => a <= 0xFFF
    case LdI(a) => a <= 0xFFF
    case JpV0(a) => a <= 0xFFF
    case SeByte(x, _) => x < 16
    case SneByte(x, _) => x < 16
    case LdByte(x, _) => x < 16
    case AddByte(x, _) => x < 16
    case Rnd(x, _) => x < 16
    case Drw(x, y, n) => x < 16 && y < 16 && n < 16
    case Skp(x) => x < 16
    case Sknp(x) => x < 16
    case LdVxDt(x) => x < 16
    case LdVxK(x) => x < 16
    case LdDtVx(x) => x < 16
    case LdStVx(x) => x < 16
    case AddIVx(x) => x < 16
    case LdFVx(x) => x < 16
    case LdBVx(x) => x < 16
    case StoreRegs(x) => x < 16
    case LoadRegs(x) => x < 16
    case Unknown(op) => Unrecognised(Instruction(op, 0))
    case _ => f.x < 16 && f.y < 16
  }

  /** The forms whose operands are whole registers (X, and Y or N). */
  predicate RegisterForm(f: Form)
  {
    !(f.Cls? || f.Ret? || f.Sys? || f.Jp? || f.Call? || f.LdI? || f.JpV0?
      || f.SeByte? || f.SneByte? || f.LdByte? || f.AddByte? || f.Rnd? || f.Unknown?)
  }

  /** The four nibbles of the canonical bit pattern of a form. */
  function Fields(f: Form): (r: (u8, u8, u8, u8))
    requires WellFormed(f)
    ensures r.0 < 16 && r.1 < 16 && r.2 < 16 && r.3 < 16
  {
    match f
    case Cls => (0x0, 0x0, 0xE, 0x0)
    case Ret => (0x0, 0x0, 0xE, 0xE)
    case Sys(a) => AddressPattern(0x0, a)
    case Jp(a) => AddressPattern(0x1, a)
    case Call(a) => AddressPattern(0x2, a)
    case SeByte(x, nn) => ByteOperand(0x3, x, nn)
    case SneByte(x, nn) => ByteOperand(0x4, x, nn)
    case LdByte(x, nn) => ByteOperand(0x6, x, nn)
    case AddByte(x, nn) => ByteOperand(0x7, x, nn)
    case LdI(a) => AddressPattern(0xA, a)
    case JpV0(a) => AddressPattern(0xB, a)
    case Rnd(x, nn) => ByteOperand(0xC, x, nn)
    case Unknown(op) => Instruction(op, 0).Nibbles()
    case _ => RegisterFields(f)
  }

  /** The nibbles of a form whose operands are registers. */
  function RegisterFields(f: Form): (r: (u8, u8, u8, u8))
    requires WellFormed(f) && RegisterForm(f)
    ensures r.0 < 16 && r.1 < 16 && r.2 < 16 && r.3 < 16
  {
    match f
    case SeReg(x, y) => (0x5, x, y, 0x0)
    case LdReg(x, y) => (0x8, x, y, 0x0)
    case Or(x, y) => (0x8, x, y, 0x1)
    case And(x, y) => (0x8, x, y, 0x2)
    case Xor(x, y) => (0x8, x, y, 0x3)
    case AddReg(x, y) => (0x8, x, y, 0x4)
    case Sub(x, y) => (0x8, x, y, 0x5)
    case Shr(x, y) => (0x8, x, y, 0x6)
    case Subn(x, y) => (0x8, x, y, 0x7)
    case Shl(x, y) => (0x8, x, y, 0xE)
    case SneReg(x, y) => (0x9, x, y, 0x0)
    case Drw(x, y, n) => (0xD, x, y, n)
    case Skp(x) => (0xE, x, 0x9, 0xE)
    case Sknp(x) => (0xE, x, 0xA, 0x1)
    case LdVxDt(x) => (0xF, x, 0x0, 0x7)
    case LdVxK(x) => (0xF, x, 0x0, 0xA)
    case LdDtVx(x) => (0xF, x, 0x1, 0x5)
    case LdStVx(x) => (0xF, x, 0x1, 0x8)
    case AddIVx(x) => (0xF, x, 0x1, 0xE)
    case LdFVx(x) => (0xF, x, 0x2, 0x9)
    case LdBVx(x) => (0xF, x, 0x3, 0x3)
    case StoreRegs(x) => (0xF, x, 0x5, 0x5)
    case LoadRegs(x) => (0xF, x, 0x6, 0x5)
  }

  /** The nibbles of an instruction `GNNN` with a 12-bit address field. */
  function AddressPattern(g: u8, a: u16): (r: (u8, u8, u8, u8))
    requires g < 16 && a <= 0xFFF
    ensures r.0 == g && r.1 < 16 && r.2 < 16 && r.3 < 16
    ensures r.1 * 0x100 + r.2 * 0x10 + r.3 == a
  {
    SplitField(a);
    (g, a / 0x100, a / 0x10 % 0x10, a % 0x10)
  }

  /** The nibbles of an instruction `GXNN` with a register and a byte. */
  function ByteOperand(g: u8, x: u8, nn: u8): (r: (u8, u8, u8, u8))
    requires g < 16 && x < 16
    ensures r.0 == g && r.1 == x && r.2 < 16 && r.3 < 16
    ensures r.2 * 0x10 + r.3 == nn
  {
    SplitField(nn);
    (g, x, nn / 0x10, nn % 0x10)
  }

  /** An address field put together from nibbles splits back into them. */
  lemma AddressPatternOf(g: u8, x: u8, y: u8, n: u8)
    requires g < 16 && x < 16 && y < 16 && n < 16
    ensures AddressPattern(g, x * 0x100 + y * 0x10 + n) == (g, x, y, n)
  {
    var a := x * 0x100 + y * 0x10 + n;
    assert a / 0x10 == x * 0x10 + y;
    assert a / 0x100 == x;
  }

  /** The canonical bit pattern of a form. */
  function Encode(f: Form): (op: u16)
    requires WellFormed(f)
  {
    var (a, b, c, d) := Fields(f);
    a * 0x1000 + b * 0x100 + c * 0x10 + d
  }

  /** Decoding the nibbles of a form gives the form back. */
  lemma DecodeFields(f: Form)
    requires WellFormed(f)
    ensures var (a, b, c, d) := Fields(f); Decode(a, b, c, d) == f
  {
    if f.Sys? || f.Jp? || f.Call? || f.LdI? || f.JpV0? {
      DecodeAddressFields(f);
    } else if f.SeByte? || f.SneByte? || f.LdByte? || f.AddByte? || f.Rnd? {
      DecodeByteFields(f);
    } else if f.Unknown? {
      var (a, b, c, d) := Instruction(f.opcode, 0).Nibbles();
    }
  }

  lemma DecodeAddressFields(f: Form)
    requires WellFormed(f) && (f.Sys? || f.Jp? || f.Call? || f.LdI? || f.JpV0?)
    ensures var (a, b, c, d) := Fields(f); Decode(a, b, c, d) == f
  {
  }

  lemma DecodeByteFields(f: Form)
    requires WellFormed(f) && (f.SeByte? || f.SneByte? || f.LdByte? || f.AddByte? || f.Rnd?)
    ensures var (a, b, c, d) := Fields(f); Decode(a, b, c, d) == f
  {
  }

  /** Every nibble pattern is the pattern of the form it decodes to. */
  lemma FieldsDecode(n0: u8, x: u8, y: u8, n: u8)
    requires n0 < 16 && x < 16 && y < 16 && n < 16
    ensures var f := Decode(n0, x, y, n); WellFormed(f) && Fields(f) == (n0, x, y, n)
  {
    if n0 == 0x8 {
      FieldsDecodeAlu(x, y, n);
    } else if n0 == 0xF {
      FieldsDecodeMisc(x, y, n);
    } else if n0 in {0x5, 0x9, 0xD, 0xE} {
      FieldsDecodeRegisters(n0, x, y, n);
    } else if n0 in {0x3, 0x4, 0x6, 0x7, 0xC} {
      FieldsDecodeByte(n0, x, y, n);
    } else {
      FieldsDecodeAddress(n0, x, y, n);
    }
  }

  lemma FieldsDecodeAddress(n0: u8, x: u8, y: u8, n: u8)
    requires n0 in {0x0, 0x1, 0x2, 0xA, 0xB} && x < 16 && y < 16 && n < 16
    ensures var f := Decode(n0, x, y, n); WellFormed(f) && Fields(f) == (n0, x, y, n)
  {
    AddressPatternOf(n0, x, y, n);
  }

  lemma FieldsDecodeByte(n0: u8, x: u8, y: u8, n: u8)
    requires n0 in {0x3, 0x4, 0x6, 0x7, 0xC} && x < 16 && y < 16 && n < 16
    ensures var f := Decode(n0, x, y, n); WellFormed(f) && Fields(f) == (n0, x, y, n)
  {
    var nn := y * 0x10 + n;
    assert nn / 0x10 == y && nn % 0x10 == n;
  }

  lemma FieldsDecodeAlu(x: u8, y: u8, n: u8)
    requires x < 16 && y < 16 && n < 16
    ensures var f := Decode(0x8, x, y, n); WellFormed(f) && Fields(f) == (0x8, x, y, n)
  {
    if Decode(0x8, x, y, n).Unknown? {
      Unpack(0x8, x, y, n, 0);
    }
  }

  lemma FieldsDecodeMisc(x: u8, y: u8, n: u8)
    requires x < 16 && y < 16 && n < 16
    ensures var f := Decode(0xF, x, y, n); WellFormed(f) && Fields(f) == (0xF, x, y, n)
  {
    if Decode(0xF, x, y, n).Unknown? {
      Unpack(0xF, x, y, n, 0);
    }
  }

  lemma FieldsDecodeRegisters(n0: u8, x: u8, y: u8, n: u8)
    requires n0 in {0x5, 0x9, 0xD, 0xE} && x < 16 && y < 16 && n < 16
    ensures var f := Decode(n0, x, y, n); WellFormed(f) && Fields(f) == (n0, x, y, n)
  {
    if Decode(n0, x, y, n).Unknown? {
      Unpack(n0, x, y, n, 0);
    }
  }

  /** Every opcode is the canonical pattern of the form it is classified as,
      so the classification loses no bits and distinct opcodes get distinct
      forms. */
  lemma EncodeClassify(inst: Instruction)
    ensures WellFormed(Classify(inst)) && Encode(Classify(inst)) == inst.opcode
  {
    var (n0, n1, n2, n3) := inst.Nibbles();
    FieldsDecode(n0, n1, n2, n3);
  }

  /** Nibbles put together are read back unchanged. */
  lemma Unpack(a: u8, b: u8, c: u8, d: u8, addr: u16)
    requires a < 16 && b < 16 && c < 16 && d < 16
    ensures Instruction(a * 0x1000 + b * 0x100 + c * 0x10 + d, addr).Nibbles() == (a, b, c, d)
  {
    var op := a * 0x1000 + b * 0x100 + c * 0x10 + d;
    assert op / 0x10 == a * 0x100 + b * 0x10 + c;
    assert op / 0x100 == a * 0x10 + b;
    assert op / 0x1000 == a;
  }

  /** The nibbles of a 12-bit address field, or of a byte field, put together. */
  lemma SplitField(a: u16)
    requires a <= 0xFFF
    ensures a / 0x100 < 16 && a == (a / 0x100) * 0x100 + (a / 0x10 % 0x10) * 0x10 + a % 0x10
    ensures a < 0x100 ==> a == (a / 0x10) * 0x10 + a % 0x10
  {
    assert a == (a / 0x10) * 0x10 + a % 0x10;
    assert a / 0x10 == (a / 0x100) * 0x10 + a / 0x10 % 0x10;
  }

  /** Classifying the canonical pattern of a well-formed form gives that
      form back, at any address. */
  lemma ClassifyEncode(f: Form, addr: u16)
    requires WellFormed(f)
    ensures Classify(Instruction(Encode(f), addr)) == f
  {
    var (a, b, c, d) := Fields(f);
    var inst := Instruction(Encode(f), addr);
    assert inst.Nibbles() == (a, b, c, d) by {
      Unpack(a, b, c, d, addr);
    }
    assert Decode(a, b, c, d) == f by {
      DecodeFields(f);
    }
  }
}
