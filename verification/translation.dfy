/** What `compile_instruction`, `generate_init` and `generate_runtime`
    (src/codegen.rs) append for each CHIP-8 instruction and for the fixed
    runtime, as lists of buffer calls. */
module Translation {
  import opened Types
  import opened Chip8
  import opened Z80

  // The memory map of the generated program (src/codegen.rs:16-27).
  const CODE_START: u16 := 0x0100
  const CHIP8_V0: u16 := 0x8000
  const CHIP8_I: u16 := 0x8010
  const CHIP8_SP: u16 := 0x8012
  const CHIP8_DT: u16 := 0x8013
  const CHIP8_ST: u16 := 0x8014
  const CHIP8_RNG: u16 := 0x8016
  const CHIP8_STACK: u16 := 0x8100
  const DISPLAY_BUF: u16 := 0x8200
  const FONT_DATA: u16 := 0x8300
  const CHIP8_RAM: u16 := 0x8400
  const ACIA_CTRL: u8 := 0x80
  const ACIA_DATA: u8 := 0x81

  /** The seed `generate_init` writes to the two RNG bytes. */
  const RNG_SEED_LO: u8 := 0xAC
  const RNG_SEED_HI: u8 := 0xE1

  /** The sixteen 5-byte hexadecimal digit sprites of `font_rom`. */
  const FONT: seq<u8> := [
    0xF0, 0x90, 0x90, 0x90, 0xF0,  0x20, 0x60, 0x20, 0x20, 0x70,
    0xF0, 0x10, 0xF0, 0x80, 0xF0,  0xF0, 0x10, 0xF0, 0x10, 0xF0,
    0x90, 0x90, 0xF0, 0x10, 0x10,  0xF0, 0x80, 0xF0, 0x10, 0xF0,
    0xF0, 0x80, 0xF0, 0x90, 0xF0,  0xF0, 0x10, 0x20, 0x40, 0x40,
    0xF0, 0x90, 0xF0, 0x90, 0xF0,  0xF0, 0x90, 0xF0, 0x10, 0xF0,
    0xF0, 0x90, 0xF0, 0x90, 0x90,  0xE0, 0x90, 0xE0, 0x90, 0xE0,
    0xF0, 0x80, 0x80, 0x80, 0xF0,  0xE0, 0x90, 0x90, 0x90, 0xE0,
    0xF0, 0x80, 0xF0, 0x80, 0xF0,  0xF0, 0x80, 0xF0, 0x80, 0x80]

  /** The Z80 label of the code for the CHIP-8 instruction at `addr`:
      `format!("c8_{:03X}", addr)`. */
  function C8Label(addr: u16): string
  {
    "c8_" + Hex(addr, 3)
  }

  /** Whether a label name has the form of a `c8_` label. */
  predicate IsC8Name(name: string)
  {
    |name| >= 3 && name[0] == 'c' && name[1] == '8' && name[2] == '_'
  }

  /** No item of the list defines a `c8_` label. */
  predicate NoC8Mark(items: seq<Item>)
  {
    forall it :: it in items && it.Mark? ==> !IsC8Name(it.name)
  }

  /** Distinct addresses get distinct labels. */
  lemma C8LabelInjective(a: u16, b: u16)
    requires C8Label(a) == C8Label(b)
    ensures a == b
  {
    assert Hex(a, 3) == C8Label(a)[3..];
    assert Hex(b, 3) == C8Label(b)[3..];
    HexInjective(a, 3, b, 3);
  }

  /** The byte of CHIP-8 register Vx. */
  function V(x: u8): u16
    requires x < 16
  {
    CHIP8_V0 + x
  }

  /** The conditional jump over the next CHIP-8 instruction (JP Z when the
      skip is on equality, JP NZ otherwise): emitted only when the
      instruction two slots on has a label. The target address is a 16-bit
      sum. */
  function SkipJump(onEqual: bool, inst: Instruction, table: map<u16, string>): seq<Item>
  {
    var target := Wrap16(inst.addr + 4);
    if target !in table then []
    else if onEqual then JpZLabel(table[target])
    else JpNzLabel(table[target])
  }

  /** A JP or CALL whose target is not the address of any parsed
      instruction: the only instructions `compile_instruction` rejects. */
  predicate BadTarget(inst: Instruction, table: map<u16, string>)
  {
    var f := Classify(inst);
    (f.Jp? || f.Call?) && inst.NNN() !in table
  }

  /** The message for a rejected JP or CALL, naming its target in three
      hexadecimal digits. */
  function TargetError(inst: Instruction): string
  {
    (if Classify(inst).Jp? then "Jump to unknown address " else "Call to unknown address ") + Hex(inst.NNN(), 3)
  }

  /** `compile_instruction` (src/codegen.rs:431-979): the buffer calls for
      one instruction, chosen by the same arms in the same order as the
      classification, or the error for a jump or call to an unknown
      address. */
  function Translate(inst: Instruction, table: map<u16, string>): (r: Result<seq<Item>>)
    ensures r.Err? <==> BadTarget(inst, table)
    ensures r.Err? ==> r.msg == TargetError(inst)
  {
    var f, x, y, n, nn, nnn := Classify(inst), inst.X(), inst.Y(), inst.N(), inst.NN(), inst.NNN();
    if f.Jp? then
      if nnn in table then Ok(JpLabel(table[nnn])) else Err("Jump to unknown address " + Hex(nnn, 3))
    else if f.Call? then
      if nnn in table then Ok(CallItems(Wrap16(inst.addr + 2)) + JpLabel(table[nnn]))
      else Err("Call to unknown address " + Hex(nnn, 3))
    else if f.SeByte? || f.SneByte? || f.SeReg? || f.SneReg? || f.Skp? || f.Sknp? then
      Ok(SkipItems(f, x, y, nn, inst, table))
    else if f.LdReg? || f.Or? || f.And? || f.Xor? || f.AddReg? || f.Sub? || f.Shr? || f.Subn? || f.Shl? then
      Ok(AluItems(f, x, y))
    else if f.Drw? || f.LdVxDt? || f.LdVxK? || f.LdDtVx? || f.LdStVx? || f.AddIVx? || f.LdFVx? || f.LdBVx?
      || f.StoreRegs? || f.LoadRegs? then
      Ok(MiscItems(f, x, y, n, inst.addr))
    else
      Ok(SimpleItems(f, x, nn, nnn))
  }

  /** What `compile_instruction` has appended by the time it returns: the
      whole translation when it succeeds; when it fails, the stack push that
      a CALL emits before it looks its target up, and nothing for a JP. */
  function Emitted(inst: Instruction, table: map<u16, string>): seq<Item>
  {
    match Translate(inst, table)
    case Ok(items) => items
    case Err(_) => if Classify(inst).Call? then CallItems(Wrap16(inst.addr + 2)) else []
  }

  /** A rejected JP has appended nothing; a rejected CALL has appended its
      stack push, which records no fixup and defines no label. */
  lemma EmittedOnError(inst: Instruction, table: map<u16, string>, labels: map<string, u16>, start: nat)
    requires BadTarget(inst, table)
    ensures Emitted(inst, table) == if Classify(inst).Call? then CallItems(Wrap16(inst.addr + 2)) else []
    ensures Refs(start, Emitted(inst, table)) == [] && Defs(labels, start, Emitted(inst, table)) == labels
  {
    CallItemsPlain(Wrap16(inst.addr + 2));
    PlainRecordsNothing(labels, start, Emitted(inst, table));
  }

  /** The stack push of 2NNN emits only bytes and words. */
  lemma CallItemsPlain(ret: u16)
    ensures Plain(CallItems(ret))
  {
    var a := LdHlNn(CHIP8_SP) + Ops([LD_A_HL, LD_L_A]) + LdHN(0) + Ops([ADD_HL_HL]) + LdDeNn(CHIP8_STACK);
    var b := Ops([ADD_HL_DE]) + LdAN(Lo(ret)) + Ops([LD_HL_A, INC_HL]) + LdAN(Hi(ret)) + Ops([LD_HL_A]);
    var c := LdHlNn(CHIP8_SP) + Ops([INC_HL_IND]);
    assert Plain(a) && Plain(b) && Plain(c);
    assert CallItems(ret) == a + b + c;
  }

  /** The code of an instruction defines no label that starts with `c8_`,
      so it never moves the label of a CHIP-8 address, whatever it emits. */
  lemma EmittedLabels(inst: Instruction, table: map<u16, string>)
    ensures NoC8Mark(Emitted(inst, table))
  {
    var f, x, y, n, nn, nnn := Classify(inst), inst.X(), inst.Y(), inst.N(), inst.NN(), inst.NNN();
    if Translate(inst, table).Err? || f.Call? {
      CallItemsPlain(Wrap16(inst.addr + 2));
    } else if f.SeByte? || f.SneByte? || f.SeReg? || f.SneReg? || f.Skp? || f.Sknp? {
      SkipLabels(f, x, y, nn, inst, table);
    } else if f.LdReg? || f.Or? || f.And? || f.Xor? || f.AddReg? || f.Sub? || f.Shr? || f.Subn? || f.Shl? {
      AluLabels(f, x, y);
    } else if f.Drw? || f.LdVxDt? || f.LdVxK? || f.LdDtVx? || f.LdStVx? || f.AddIVx? || f.LdFVx? || f.LdBVx?
      || f.StoreRegs? || f.LoadRegs? {
      MiscLabels(f, x, y, n, inst.addr);
    } else if !f.Jp? {
      SimpleLabels(f, x, nn, nnn);
    }
  }

  lemma SkipLabels(f: Form, x: u8, y: u8, nn: u8, inst: Instruction, table: map<u16, string>)
    requires x < 16 && y < 16
    ensures NoC8Mark(SkipItems(f, x, y, nn, inst, table))
  {
  }

  lemma SimpleLabels(f: Form, x: u8, nn: u8, nnn: u16)
    requires x < 16
    ensures NoC8Mark(SimpleItems(f, x, nn, nnn))
  {
  }

  lemma AluLabels(f: Form, x: u8, y: u8)
    requires x < 16 && y < 16
    ensures NoC8Mark(AluItems(f, x, y))
  {
    assert NoC8Mark(CarryToVF());
    NoBorrowLabels("no_borrow_8xy5");
    NoBorrowLabels("no_borrow_8xy7");
  }

  lemma NoBorrowLabels(name: string)
    requires !IsC8Name(name)
    ensures NoC8Mark(NoBorrowToVF(name))
  {
  }

  lemma MiscLabels(f: Form, x: u8, y: u8, n: u8, addr: u16)
    requires x < 16 && y < 16 && n < 16
    ensures NoC8Mark(MiscItems(f, x, y, n, addr))
  {
    DrawLabels(x, y, n, addr);
    BcdLabels(x);
    RegsLabels(x);
    IndexLabels(x);
  }

  lemma IndexLabels(x: u8)
    requires x < 16
    ensures NoC8Mark(AddIItems(x)) && NoC8Mark(FontCharItems(x))
  {
  }

  /** Concatenating two lists that define no `c8_` label defines none. */
  lemma NoC8Cat(a: seq<Item>, b: seq<Item>)
    requires NoC8Mark(a) && NoC8Mark(b)
    ensures NoC8Mark(a + b)
  {
  }

  lemma DrawLabels(x: u8, y: u8, n: u8, addr: u16)
    requires x < 16 && y < 16 && n < 16
    ensures NoC8Mark(DrawItems(x, y, n, addr))
  {
    var screen, source, call := DrawScreenItems(x, y), DrawSourceItems(addr), DrawCallItems(n);
    DrawScreenLabels(x, y);
    DrawSourceLabels(addr);
    assert NoC8Mark(call);
    NoC8Cat(screen, source);
    NoC8Cat(screen + source, call);
  }

  lemma DrawScreenLabels(x: u8, y: u8)
    requires x < 16 && y < 16
    ensures NoC8Mark(DrawScreenItems(x, y))
  {
    var row, col := DrawRowItems(y), DrawColumnItems(x);
    assert NoC8Mark(row) && NoC8Mark(col);
    NoC8Cat(row, col);
    NoC8Cat(row + col, LdDeNn(DISPLAY_BUF));
    NoC8Cat(row + col + LdDeNn(DISPLAY_BUF), Ops([ADD_HL_DE, PUSH_HL]));
  }

  lemma DrawSourceLabels(addr: u16)
    ensures NoC8Mark(DrawSourceItems(addr))
  {
    var notFont := "draw_not_font_" + Hex(addr, 3);
    var haveSprite := "draw_have_sprite_" + Hex(addr, 3);
    var load, font, rom := LdHlNn(CHIP8_I) + Ops([LD_E_HL, INC_HL, LD_D_HL]),
      FontSpriteItems(notFont, haveSprite), RomSpriteItems(notFont, haveSprite);
    assert notFont[0] == 'd' && haveSprite[0] == 'd';
    assert NoC8Mark(load) && NoC8Mark(font) && NoC8Mark(rom);
    NoC8Cat(load, font);
    NoC8Cat(load + font, rom);
  }

  lemma BcdLabels(x: u8)
    requires x < 16
    ensures NoC8Mark(BcdItems(x))
  {
    var a, b, c, d, e := LdAMem(V(x)), RamPointerItems(), DigitItems("bcd_hundreds", 100, "bcd_tens"),
      DigitItems("bcd_tens_loop", 10, "bcd_ones"), Ops([LD_HL_A]);
    assert NoC8Mark(a) && NoC8Mark(b) && NoC8Mark(e);
    DigitLabels("bcd_hundreds", 100, "bcd_tens");
    DigitLabels("bcd_tens_loop", 10, "bcd_ones");
    NoC8Cat(a, b);
    NoC8Cat(a + b, c);
    NoC8Cat(a + b + c, d);
    NoC8Cat(a + b + c + d, e);
  }

  lemma DigitLabels(loop: string, unit: u8, done: string)
    requires !IsC8Name(loop) && !IsC8Name(done)
    ensures NoC8Mark(DigitItems(loop, unit, done))
  {
  }

  lemma RegsLabels(x: u8)
    requires x < 16
    ensures NoC8Mark(StoreRegsItems(x)) && NoC8Mark(LoadRegsItems(x))
  {
    assert NoC8Mark(RamPointerItems());
    assert NoC8Mark(CopyLoopItems("store_regs")) && NoC8Mark(CopyLoopItems("load_regs"));
  }

  /** 6XNN appends `LD A,nn; LD (Vx),A`, the bytes 3E nn 32 x 80, and
      records no fixup and no label. */
  lemma LdByteCode(inst: Instruction, table: map<u16, string>, start: nat)
    requires inst.Nibbles().0 == 0x6
    ensures var r := Translate(inst, table);
      && r.Ok?
      && Bytes(r.value) == [0x3E, inst.NN(), 0x32, inst.X(), 0x80]
      && Refs(start, r.value) == [] && Defs(map[], start, r.value) == map[]
  {
    assert Translate(inst, table) == Ok(LdAN(inst.NN()) + LdMemA(V(inst.X())));
    LoadByteBytes(inst.NN(), inst.X(), start);
  }

  lemma LoadByteBytes(nn: u8, x: u8, start: nat)
    requires x < 16
    ensures var items := LdAN(nn) + LdMemA(V(x));
      Bytes(items) == [0x3E, nn, 0x32, x, 0x80] && Refs(start, items) == [] && Defs(map[], start, items) == map[]
  {
    PairItems(Byte(0x3E), Byte(nn), start);
    PairItems(Byte(0x32), Word(V(x)), start);
    BytesAppend(LdAN(nn), LdMemA(V(x)));
    PlainRecordsNothing(map[], start, LdAN(nn) + LdMemA(V(x)));
  }

  /** 7XNN appends `LD A,(Vx); ADD A,nn; LD (Vx),A`, the bytes
      3A x 80 C6 nn 32 x 80, and records no fixup and no label. */
  lemma AddByteCode(inst: Instruction, table: map<u16, string>, start: nat)
    requires inst.Nibbles().0 == 0x7
    ensures var r := Translate(inst, table);
      && r.Ok?
      && Bytes(r.value) == [0x3A, inst.X(), 0x80, 0xC6, inst.NN(), 0x32, inst.X(), 0x80]
      && Refs(start, r.value) == [] && Defs(map[], start, r.value) == map[]
  {
    var v := V(inst.X());
    assert Translate(inst, table) == Ok(LdAMem(v) + AddAN(inst.NN()) + LdMemA(v));
    AddByteBytes(inst.NN(), inst.X(), start);
  }

  lemma AddByteBytes(nn: u8, x: u8, start: nat)
    requires x < 16
    ensures var items := LdAMem(V(x)) + AddAN(nn) + LdMemA(V(x));
      && Bytes(items) == [0x3A, x, 0x80, 0xC6, nn, 0x32, x, 0x80]
      && Refs(start, items) == [] && Defs(map[], start, items) == map[]
  {
    var v := V(x);
    var a, b, c := LdAMem(v), AddAN(nn), LdMemA(v);
    assert Lo(v) == x && Hi(v) == 0x80;
    PairItems(Byte(0x3A), Word(v), start);
    PairItems(Byte(0xC6), Byte(nn), start);
    PairItems(Byte(0x32), Word(v), start);
    assert Bytes(a) == [0x3A, x, 0x80] && Bytes(b) == [0xC6, nn] && Bytes(c) == [0x32, x, 0x80];
    BytesAppend(a, b);
    BytesAppend(a + b, c);
    assert Plain(a) && Plain(b) && Plain(c);
    PlainAppend(a, b);
    PlainAppend(a + b, c);
    PlainRecordsNothing(map[], start, a + b + c);
  }

  /** SYS and the unrecognised opcodes append nothing and are not errors. */
  lemma NothingForSysOrUnknown(inst: Instruction, table: map<u16, string>)
    requires Classify(inst).Sys? || Classify(inst).Unknown?
    ensures Translate(inst, table) == Ok([])
  {
  }

  /** 3XNN appends `LD A,(Vx); CP nn` and then, only when the instruction
      after the next one has a label, `JP Z` to it; it is never an error,
      whether or not that label exists. */
  lemma SkipIfEqualCode(inst: Instruction, table: map<u16, string>, start: nat)
    requires inst.Nibbles().0 == 0x3
    ensures var r, target := Translate(inst, table), Wrap16(inst.addr + 4);
      && r.Ok?
      && Bytes(r.value) == [0x3A, inst.X(), 0x80, 0xFE, inst.NN()] + (if target in table then [0xCA, 0, 0] else [])
      && Refs(start, r.value) == (if target in table then [(Wrap16(start + 6), table[target])] else [])
  {
    assert Translate(inst, table) == Ok(LdAMem(V(inst.X())) + CpN(inst.NN()) + SkipJump(true, inst, table));
    CompareThenJump(inst.NN(), inst.X(), SkipJump(true, inst, table), start);
  }

  /** The bytes and fixups of `LD A,(Vx); CP nn` followed by a jump that is
      either absent or `JP Z` to a label. */
  lemma CompareThenJump(nn: u8, x: u8, jump: seq<Item>, start: nat)
    requires x < 16 && (jump == [] || (|jump| == 2 && jump[0] == Byte(0xCA) && jump[1].Ref?))
    ensures var items := LdAMem(V(x)) + CpN(nn) + jump;
      && Bytes(items) == [0x3A, x, 0x80, 0xFE, nn] + (if jump == [] then [] else [0xCA, 0, 0])
      && Refs(start, items) == (if jump == [] then [] else [(Wrap16(start + 6), jump[1].name)])
  {
    var compare := LdAMem(V(x)) + CpN(nn);
    CompareItems(nn, x, start);
    BytesAppend(compare, jump);
    RefsAppend(start, compare, jump);
    if jump != [] {
      assert jump == [jump[0], jump[1]];
      PairItems(jump[0], jump[1], start + 5);
    }
  }

  /** `LD A,(Vx); CP nn` is five plain bytes. */
  lemma CompareItems(nn: u8, x: u8, start: nat)
    requires x < 16
    ensures var compare := LdAMem(V(x)) + CpN(nn);
      Bytes(compare) == [0x3A, x, 0x80, 0xFE, nn] && Refs(start, compare) == []
  {
    PairItems(Byte(0x3A), Word(V(x)), start);
    PairItems(Byte(0xFE), Byte(nn), start);
    BytesAppend(LdAMem(V(x)), CpN(nn));
    PlainRecordsNothing(map[], start, LdAMem(V(x)) + CpN(nn));
  }

  /** The arms that emit a comparison and then perhaps a conditional jump
      over the next instruction: 3XNN, 4XNN, 5XY0, 9XY0, EX9E and EXA1. */
  function SkipItems(f: Form, x: u8, y: u8, nn: u8, inst: Instruction, table: map<u16, string>): seq<Item>
    requires x < 16 && y < 16
  {
    match f
    case SeByte(_, _) => LdAMem(V(x)) + CpN(nn) + SkipJump(true, inst, table)
    case SneByte(_, _) => LdAMem(V(x)) + CpN(nn) + SkipJump(false, inst, table)
    case SeReg(_, _) => LdAMem(V(x)) + LdHlNn(V(y)) + Ops([CP_HL]) + SkipJump(true, inst, table)
    case SneReg(_, _) => LdAMem(V(x)) + LdHlNn(V(y)) + Ops([CP_HL]) + SkipJump(false, inst, table)
    case Skp(_) => CallLabel("get_key") + LdHlNn(V(x)) + Ops([CP_HL]) + SkipJump(true, inst, table)
    case Sknp(_) => CallLabel("get_key") + LdHlNn(V(x)) + Ops([CP_HL]) + SkipJump(false, inst, table)
    case _ => []
  }

  /** The `8XYN` arms. */
  function AluItems(f: Form, x: u8, y: u8): seq<Item>
    requires x < 16 && y < 16
  {
    match f
    case LdReg(_, _) => LdAMem(V(y)) + LdMemA(V(x))
    case Or(_, _) => LdAMem(V(x)) + LdHlNn(V(y)) + Ops([OR_HL]) + LdMemA(V(x))
    case And(_, _) => LdAMem(V(x)) + LdHlNn(V(y)) + Ops([AND_HL]) + LdMemA(V(x))
    case Xor(_, _) => LdAMem(V(x)) + LdHlNn(V(y)) + Ops([XOR_HL]) + LdMemA(V(x))
    case AddReg(_, _) => LdAMem(V(x)) + LdHlNn(V(y)) + Ops([ADD_A_HL]) + LdMemA(V(x)) + CarryToVF()
    case Sub(_, _) => LdAMem(V(x)) + LdHlNn(V(y)) + Ops([SUB_HL]) + LdMemA(V(x)) + NoBorrowToVF("no_borrow_8xy5")
    case Shr(_, _) => LdAMem(V(x)) + Ops([0xCB, 0x3F]) + LdMemA(V(x)) + CarryToVF()
    case Subn(_, _) => LdAMem(V(y)) + LdHlNn(V(x)) + Ops([SUB_HL]) + LdMemA(V(x)) + NoBorrowToVF("no_borrow_8xy7")
    case Shl(_, _) => LdAMem(V(x)) + Ops([0xCB, 0x27]) + LdMemA(V(x)) + CarryToVF()
    case _ => []
  }

  /** DXYN and the `FX__` arms. */
  function MiscItems(f: Form, x: u8, y: u8, n: u8, addr: u16): seq<Item>
    requires x < 16 && y < 16 && n < 16
  {
    match f
    case Drw(_, _, _) => DrawItems(x, y, n, addr)
    case LdVxDt(_) => LdAMem(CHIP8_DT) + LdMemA(V(x))
    case LdVxK(_) => CallLabel("wait_key") + LdMemA(V(x))
    case LdDtVx(_) => LdAMem(V(x)) + LdMemA(CHIP8_DT)
    case LdStVx(_) => LdAMem(V(x)) + LdMemA(CHIP8_ST)
    case AddIVx(_) => AddIItems(x)
    case LdFVx(_) => FontCharItems(x)
    case LdBVx(_) => BcdItems(x)
    case StoreRegs(_) => StoreRegsItems(x)
    case LoadRegs(_) => LoadRegsItems(x)
    case _ => []
  }

  /** The remaining arms: 00E0, 00EE, 0NNN, 6XNN, 7XNN, ANNN, BNNN, CXNN
      and the unrecognised opcodes, which emit nothing. */
  function SimpleItems(f: Form, x: u8, nn: u8, nnn: u16): seq<Item>
    requires x < 16
  {
    match f
    case Cls => CallLabel("cls")
    case Ret => ReturnItems()
    case LdByte(_, _) => LdAN(nn) + LdMemA(V(x))
    case AddByte(_, _) => LdAMem(V(x)) + AddAN(nn) + LdMemA(V(x))
    case LdI(_) => LdHlNn(nnn) + LdDeNn(CHIP8_I) + Ops([LD_A_L, LD_DE_A, INC_DE, LD_A_H, LD_DE_A])
    case JpV0(_) => LdAMem(V(0)) + Ops([LD_L_A]) + LdHN(0) + LdDeNn(nnn) + Ops([ADD_HL_DE, PUSH_HL, RET])
    case Rnd(_, _) => CallLabel("rng") + AndN(nn) + LdMemA(V(x))
    case _ => []
  }

  /** 00EE: pop a return address from the CHIP-8 stack and jump to it. */
  function ReturnItems(): seq<Item>
  {
    LdHlNn(CHIP8_SP) + Ops([DEC_HL, LD_A_HL, DEC_A, LD_HL_A, LD_L_A]) + LdHN(0) + Ops([ADD_HL_HL])
    + LdDeNn(CHIP8_STACK) + Ops([ADD_HL_DE, LD_E_HL, INC_HL, LD_D_HL, PUSH_DE, RET])
  }

  /** 2NNN before its jump: push the return address `ret` on the CHIP-8
      stack, low byte first, and increment the stack pointer. */
  function CallItems(ret: u16): seq<Item>
  {
    LdHlNn(CHIP8_SP) + Ops([LD_A_HL, LD_L_A]) + LdHN(0) + Ops([ADD_HL_HL]) + LdDeNn(CHIP8_STACK)
    + Ops([ADD_HL_DE]) + LdAN(Lo(ret)) + Ops([LD_HL_A, INC_HL]) + LdAN(Hi(ret)) + Ops([LD_HL_A])
    + LdHlNn(CHIP8_SP) + Ops([INC_HL_IND])
  }

  /** VF := carry (`LD A,0; ADC A,0; LD (VF),A`). */
  function CarryToVF(): seq<Item>
  {
    LdAN(0) + Ops([0xCE, 0x00]) + LdMemA(V(0xF))
  }

  /** VF := not borrow, through the fixed label `name`. */
  function NoBorrowToVF(name: string): seq<Item>
  {
    LdAN(1) + JrNc(name) + Ops([XOR_A]) + [Mark(name)] + LdMemA(V(0xF))
  }

  /** DXYN: screen address from Vx and Vy, sprite address from I, then
      `draw_sprite` with N rows. */
  function DrawItems(x: u8, y: u8, n: u8, addr: u16): seq<Item>
    requires x < 16 && y < 16 && n < 16
  {
    DrawScreenItems(x, y) + DrawSourceItems(addr) + DrawCallItems(n)
  }

  /** Push DISPLAY_BUF + (Vy & 31) * 8 + ((Vx & 63) >> 3). */
  function DrawScreenItems(x: u8, y: u8): seq<Item>
    requires x < 16 && y < 16
  {
    DrawRowItems(y) + DrawColumnItems(x) + LdDeNn(DISPLAY_BUF) + Ops([ADD_HL_DE, PUSH_HL])
  }

  /** HL := (Vy & 31) * 8, the offset of the sprite's first screen row. */
  function DrawRowItems(y: u8): seq<Item>
    requires y < 16
  {
    LdAMem(V(y)) + AndN(0x1F) + Ops([LD_L_A]) + LdHN(0) + Ops([ADD_HL_HL, ADD_HL_HL, ADD_HL_HL])
  }

  /** HL := HL + ((Vx & 63) >> 3), the byte column. */
  function DrawColumnItems(x: u8): seq<Item>
    requires x < 16
  {
    LdAMem(V(x)) + AndN(0x3F) + Ops([0xCB, 0x3F, 0xCB, 0x3F, 0xCB, 0x3F, LD_E_A]) + LdDN(0) + Ops([ADD_HL_DE])
  }

  /** HL := FONT_DATA + I for I < 0x50, otherwise `chip8_rom_data` +
      (I - 0x200); the two local labels carry the instruction's address. */
  function DrawSourceItems(addr: u16): seq<Item>
  {
    var notFont := "draw_not_font_" + Hex(addr, 3);
    var haveSprite := "draw_have_sprite_" + Hex(addr, 3);
    LdHlNn(CHIP8_I) + Ops([LD_E_HL, INC_HL, LD_D_HL]) + FontSpriteItems(notFont, haveSprite)
    + RomSpriteItems(notFont, haveSprite)
  }

  /** DE = I; unless D is zero and E is below 0x50, jump to `notFont`;
      otherwise HL := FONT_DATA + I and jump to `haveSprite`. */
  function FontSpriteItems(notFont: string, haveSprite: string): seq<Item>
  {
    Ops([LD_A_D, OR_A]) + JpNzLabel(notFont) + Ops([LD_A_E]) + CpN(0x50) + JrNc(notFont)
    + LdHlNn(FONT_DATA) + Ops([ADD_HL_DE]) + JpLabel(haveSprite)
  }

  /** At `notFont`, HL := `chip8_rom_data` + (I - 0x200); then label
      `haveSprite`. */
  function RomSpriteItems(notFont: string, haveSprite: string): seq<Item>
  {
    [Mark(notFont)] + LdHlNn(0x200) + Ops([EX_DE_HL, OR_A, 0xED, 0x52, EX_DE_HL])
    + LdHlLabel("chip8_rom_data") + Ops([ADD_HL_DE]) + [Mark(haveSprite)]
  }

  /** Pop the screen address, call `draw_sprite` for N rows, store the flag
      in VF and redraw the terminal. */
  function DrawCallItems(n: u8): seq<Item>
  {
    Ops([POP_DE]) + LdBN(n) + CallLabel("draw_sprite") + LdMemA(V(0xF)) + CallLabel("refresh_display")
  }

  /** FX1E: I := I + Vx, a 16-bit sum. */
  function AddIItems(x: u8): seq<Item>
    requires x < 16
  {
    LdAMem(V(x)) + Ops([LD_L_A]) + LdHN(0) + LdDeNn(CHIP8_I)
    + Ops([PUSH_DE, LD_A_DE, LD_E_A, INC_DE, LD_A_DE, LD_D_A, ADD_HL_DE, POP_DE,
           LD_A_L, LD_DE_A, INC_DE, LD_A_H, LD_DE_A])
  }

  /** FX29: I := (Vx & 0xF) * 5, the offset of the digit's sprite. */
  function FontCharItems(x: u8): seq<Item>
    requires x < 16
  {
    LdAMem(V(x)) + AndN(0x0F) + Ops([LD_L_A]) + LdHN(0) + Ops([ADD_HL_HL, ADD_HL_HL, LD_E_A]) + LdDN(0)
    + Ops([ADD_HL_DE]) + LdDeNn(CHIP8_I) + Ops([LD_A_L, LD_DE_A, INC_DE, LD_A_H, LD_DE_A])
  }

  /** HL := 0x8200 + I, the RAM address FX33, FX55 and FX65 use. */
  function RamPointerItems(): seq<Item>
  {
    LdHlNn(CHIP8_I) + Ops([LD_E_HL, INC_HL, LD_D_HL]) + LdHlNn(CHIP8_RAM - 0x200) + Ops([ADD_HL_DE])
  }

  /** FX33: hundreds, tens and ones of Vx by repeated subtraction, stored
      from RAM address 0x8200 + I on. */
  function BcdItems(x: u8): seq<Item>
    requires x < 16
  {
    LdAMem(V(x)) + RamPointerItems() + DigitItems("bcd_hundreds", 100, "bcd_tens")
    + DigitItems("bcd_tens_loop", 10, "bcd_ones") + Ops([LD_HL_A])
  }

  /** One decimal digit: count in B how often `unit` can be subtracted from
      A, looping at label `loop`, then at label `done` store B at (HL) and
      advance HL, keeping A. */
  function DigitItems(loop: string, unit: u8, done: string): seq<Item>
  {
    LdBN(0) + [Mark(loop)] + CpN(unit) + JrC(done) + SubN(unit) + Ops([INC_B]) + JpLabel(loop)
    + [Mark(done)] + Ops([PUSH_AF, LD_A_B, LD_HL_A, INC_HL, POP_AF])
  }

  /** FX55: copy V0..Vx to RAM from 0x8200 + I on. */
  function StoreRegsItems(x: u8): seq<Item>
    requires x < 16
  {
    RamPointerItems() + Ops([EX_DE_HL]) + LdHlNn(CHIP8_V0) + LdBN(x + 1) + CopyLoopItems("store_regs")
  }

  /** FX65: copy RAM from 0x8200 + I on into V0..Vx. */
  function LoadRegsItems(x: u8): seq<Item>
    requires x < 16
  {
    RamPointerItems() + LdDeNn(CHIP8_V0) + LdBN(x + 1) + CopyLoopItems("load_regs")
  }

  /** `(DE) := (HL)`, both incremented, B times, looping at label `name`. */
  function CopyLoopItems(name: string): seq<Item>
  {
    [Mark(name)] + Ops([LD_A_HL, LD_DE_A, INC_HL, INC_DE, DEC_B]) + JpNzLabel(name)
  }

  /** `generate_init` (src/codegen.rs:131-172): stack pointer, ACIA, clear
      the 32 register bytes, seed the RNG, clear the screen, copy the font,
      print the banner, jump to `main`. */
  function InitItems(): seq<Item>
  {
    [Mark("init")] + Ops([0x31]) + [Word(0x0000)] + CallLabel("acia_init")
    + LdHlNn(CHIP8_V0) + LdBcNn(32)
    + [Mark("init_clear")] + Ops([XOR_A, LD_HL_A, INC_HL, DEC_BC, LD_A_B, OR_C]) + JpNzLabel("init_clear")
    + LdHlNn(CHIP8_RNG) + LdAN(RNG_SEED_LO) + Ops([LD_HL_A, INC_HL]) + LdAN(RNG_SEED_HI) + Ops([LD_HL_A])
    + CallLabel("cls") + CallLabel("copy_font") + CallLabel("print_banner") + JpLabel("main")
  }

  /** `generate_runtime` (src/codegen.rs:174-429): the routines in the order
      they are emitted. */
  function RuntimeItems(): seq<Item>
  {
    SerialItems() + ClsItems() + CopyFontItems() + FontRomItems() + RngItems() + KeyItems()
    + DrawSpriteItems() + RefreshItems()
  }

  /** `acia_init`, `print_char` and `print_banner` with the banner text. */
  function SerialItems(): seq<Item>
  {
    [Mark("acia_init")] + LdAN(0x03) + OutNA(ACIA_CTRL) + LdAN(0x15) + OutNA(ACIA_CTRL) + Ops([RET])
    + [Mark("print_char")] + Ops([PUSH_AF]) + [Mark("print_wait")] + InAN(ACIA_CTRL) + AndN(0x02)
    + JpZLabel("print_wait") + Ops([POP_AF]) + OutNA(ACIA_DATA) + Ops([RET])
    + [Mark("print_banner")] + LdHlLabel("banner_str") + [Mark("print_str_loop")] + Ops([LD_A_HL, OR_A, RET_Z])
    + CallLabel("print_char") + Ops([INC_HL]) + JpLabel("print_str_loop")
    // "CHIP-8 on Z80\r\n" and its terminating zero
    + [Mark("banner_str")]
    + Ops([0x43, 0x48, 0x49, 0x50, 0x2D, 0x38, 0x20, 0x6F, 0x6E, 0x20, 0x5A, 0x38, 0x30, 0x0D, 0x0A, 0x00])
  }

  /** `cls`: zero the 256 display bytes, then redraw the terminal. */
  function ClsItems(): seq<Item>
  {
    [Mark("cls")] + LdHlNn(DISPLAY_BUF) + LdBcNn(256)
    + [Mark("cls_loop")] + Ops([XOR_A, LD_HL_A, INC_HL, DEC_BC, LD_A_B, OR_C]) + JpNzLabel("cls_loop")
    + JpLabel("refresh_display")
  }

  /** `copy_font`: copy the 80 font bytes from `font_rom` to FONT_DATA. */
  function CopyFontItems(): seq<Item>
  {
    [Mark("copy_font")] + LdHlLabel("font_rom") + LdDeNn(FONT_DATA) + LdBcNn(80)
    + [Mark("copy_font_loop")] + Ops([LD_A_HL, LD_DE_A, INC_HL, INC_DE, DEC_BC, LD_A_B, OR_C])
    + JpNzLabel("copy_font_loop") + Ops([RET])
  }

  /** `font_rom`: the font bytes themselves. */
  function FontRomItems(): seq<Item>
  {
    [Mark("font_rom")] + Ops(FONT)
  }

  /** The bytes after label `font_rom` are the 80-byte font. */
  lemma FontRomBytes()
    ensures Bytes(FontRomItems()) == FONT
  {
    var items := FontRomItems();
    assert items[1..] == Ops(FONT);
    BytesOfOps(FONT);
    BytesAppend([Mark("font_rom")], Ops(FONT));
  }

  /** `rng`: rotate the 16-bit state and return a byte of it. */
  function RngItems(): seq<Item>
  {
    [Mark("rng")] + LdHlNn(CHIP8_RNG) + Ops([LD_A_HL, INC_HL, LD_H_HL, LD_L_A, ADD_HL_HL, 0xCB, 0x15, 0xCB, 0x14,
                                             LD_A_L, XOR_H, LD_L_A, PUSH_HL])
    + LdHlNn(CHIP8_RNG) + Ops([POP_DE, LD_A_E, LD_HL_A, INC_HL, LD_A_D, LD_HL_A, LD_A_E, RET])
  }

  /** `get_key` (serial input mapped to keys 0-F, or 0xFF) and `wait_key`. */
  function KeyItems(): seq<Item>
  {
    [Mark("get_key")] + InAN(ACIA_CTRL) + AndN(0x01) + Ops([RET_Z]) + InAN(ACIA_DATA)
    + CpN(0x30) + JrC("get_key_alpha") + CpN(0x3A) + JrNc("get_key_alpha") + SubN(0x30) + Ops([RET])
    + [Mark("get_key_alpha")] + CpN(0x61) + JrC("get_key_upper") + CpN(0x67) + JrNc("get_key_none")
    + SubN(0x57) + Ops([RET])
    + [Mark("get_key_upper")] + CpN(0x41) + JrC("get_key_none") + CpN(0x47) + JrNc("get_key_none")
    + SubN(0x37) + Ops([RET])
    + [Mark("get_key_none")] + LdAN(0xFF) + Ops([RET])
    + [Mark("wait_key")] + CallLabel("get_key") + CpN(0xFF) + JpZLabel("wait_key") + Ops([RET])
  }

  /** `draw_sprite`: DE = screen address, HL = sprite address, B = rows;
      returns the collision flag in A. */
  function DrawSpriteItems(): seq<Item>
  {
    [Mark("draw_sprite")] + Ops([XOR_A, LD_C_A])
    + [Mark("draw_row")] + Ops([LD_A_HL, PUSH_HL, PUSH_DE, EX_DE_HL, LD_E_A, LD_A_HL, PUSH_AF, LD_A_E, XOR_HL,
                                LD_HL_A, POP_AF, AND_A_E, OR_C, LD_C_A, POP_DE, POP_HL, INC_HL, PUSH_HL])
    + LdHlNn(8) + Ops([ADD_HL_DE, EX_DE_HL, POP_HL, DEC_B]) + JpNzLabel("draw_row")
    + Ops([LD_A_C, OR_A, RET_Z]) + LdAN(1) + Ops([RET])
  }

  /** `refresh_display`: redraw the 64x32 screen on the terminal. */
  function RefreshItems(): seq<Item>
  {
    [Mark("refresh_display")]
    + LdAN(0x1B) + CallLabel("print_char") + LdAN(0x5B) + CallLabel("print_char")
    + LdAN(0x32) + CallLabel("print_char") + LdAN(0x3B) + CallLabel("print_char")
    + LdAN(0x31) + CallLabel("print_char") + LdAN(0x48) + CallLabel("print_char")
    + LdHlNn(DISPLAY_BUF) + LdDN(32)
    + [Mark("refresh_row")] + LdEN(8)
    + [Mark("refresh_byte")] + Ops([LD_A_HL]) + LdBN(8)
    + [Mark("refresh_bit")] + Ops([0xCB, 0x07, PUSH_AF]) + JrNc("refresh_space") + LdAN(0x23)
    + JpLabel("refresh_out")
    + [Mark("refresh_space")] + LdAN(0x20)
    + [Mark("refresh_out")] + CallLabel("print_char") + Ops([POP_AF, DEC_B]) + JpNzLabel("refresh_bit")
    + Ops([INC_HL, DEC_E]) + JpNzLabel("refresh_byte")
    + LdAN(0x0D) + CallLabel("print_char") + LdAN(0x0A) + CallLabel("print_char")
    + Ops([DEC_D]) + JpNzLabel("refresh_row") + Ops([RET])
  }
}
