# kz80_chip8 in Dafny

kz80_chip8 is a static recompiler. It reads a CHIP-8 ROM, splits it into
16-bit instructions and emits native Z80 code for each one. Each
instruction becomes a fixed sequence of Z80 instructions that works on
CHIP-8 state kept in Z80 memory (V0..VF at 0x8000, I at 0x8010, the display
at 0x8200, the font at 0x8300, CHIP-8 RAM at 0x8400). The result is one
32 KiB ROM image. This project models the core of that compiler and proves
properties of the model, in six modules:

- `Types` (`types.dfy`): Rust's `u8` and `u16`, the `Result` the compiler
  returns, the 16-bit wrap of `pc`, and the `{:03X}` formatting that names
  labels, with a proof that the formatting can be read back.
- `Chip8` (`chip8.dfy`): `Instruction` and its field extractors, `parse` as
  a loop proved against a clause-by-clause characterisation and a recursive
  reference definition, and the opcode classification of
  `disasm_instruction` as a datatype of forms. Classification is proved to
  lose no bits: every opcode is the encoding of its form, and every
  well-formed form decodes back to itself.
- `Z80` (`z80.dfy`): the four buffer primitives (`emit`, `emit16`,
  `emit_label_ref`, `label`) as a list of items, with what a list appends
  (`Bytes`), the fixups it records (`Refs`) and the labels it defines
  (`Defs`); plus the encodings of the Z80 helper methods.
- `Translation` (`translation.dfy`): `compile_instruction`,
  `generate_init` and `generate_runtime` as the item lists they emit.
- `Codegen` (`codegen.dfy`): the `Compiler` class. Its fields are the
  buffer, `pc`, the label table, the fixup list, the CHIP-8 label table and
  the ROM copy, plus a ghost history of the buffer calls made so far. Each
  method updates them as the Rust method does: `emit` ... `resolve_refs`,
  the header loop, the two passes of `compile`, the ROM embedding and the
  32768-byte image. The calls of `generate_init` and `generate_runtime` are
  the same for every ROM; a `Routines` object builds them once and a
  compiler is created from it, so that contracts can name them as two
  fields instead of spelling out the runtime's several hundred calls.
  `compile` is proved to emit the header, the start-up code, the runtime,
  the jump at `main`, each instruction's `c8_` label followed by its code,
  the halt loop and the ROM copy, in that order; each `c8_` label then
  stands for the offset of its instruction's code.
- `Runtime` (`runtime.dfy`): what the emitted loops do to Z80 memory, as
  methods over a 65536-byte array that follow the loops step by step. This
  covers `init`, `cls`, `copy_font`, `draw_sprite`, the DXYN address
  arithmetic, and FX29, FX33, FX55 and FX65. Each method is proved against
  a function on the memory contents. Lemmas about those functions give the
  intended effect: XOR into the screen rows, the collision flag, a frame,
  drawing twice restores memory, and a store followed by a load leaves the
  registers intact.

The model keeps several behaviours of the code as written:

- A fixed label such as `bcd_hundreds`, `store_regs` or `no_borrow_8xy5`
  is defined again by every instruction that emits it, and the last
  definition wins (`Label` overwrites; `Defs`).
- `pc` is a `u16` that wraps past 64 KiB, as in a release build; a debug
  build panics on that overflow, and on `inst.addr + 2` or `inst.addr + 4`
  past 0xFFFF.
- The image is the buffer cut at 32768 bytes, with no error when the code
  is longer.
- Unrecognised opcodes, and SYS, compile to nothing.
- A skip whose target has no label emits its comparison but no jump.
- DXYN draws byte-aligned: the low three bits of Vx are dropped, and rows
  past the bottom line are not wrapped.
- Sprites at I >= 0x200 are read from the copy of the ROM embedded in the
  image. FX33, FX55 and FX65 write to and read from CHIP-8 RAM at
  0x8400 + (I - 0x200).
- BNNN and 00EE push a CHIP-8 address and `ret` to it.

The code raises no error on unknown opcodes or on an image longer than
32 KiB, draws sprites byte-aligned without wrap-around, and has no dynamic
jump table; the model follows the code. The code has 35 recognised opcode
arms (CLS and RET come before SYS), and the
`Form` datatype has one constructor per arm, plus `Unknown`.

## Model

| member | source | states |
|---|---|---|
| Types.Hi | src/codegen.rs:991-994 | the high byte times 256 plus the low byte is the word: `emit16` loses nothing |
| Types.Wrap16IsMod | src/codegen.rs:986-989 | the 16-bit pc after any number of increments is the count modulo 2^16 |
| Types.Wrap16Add | src/codegen.rs:986-989 | incrementing a wrapped pc and wrapping again equals wrapping the total |
| Types.HexRoundTrip | src/codegen.rs:63-65 | reading back the zero-padded upper-case hex text of a value gives the value |
| Types.HexInjective | src/codegen.rs:63-65 | two values with the same hex text are equal |
| Chip8.Instruction.Nibbles | src/chip8.rs:16-22 | four nibbles, each below 16, that put back together give the opcode |
| Chip8.Instruction.X | src/chip8.rs:25-27 | X is nibble 1 |
| Chip8.Instruction.Y | src/chip8.rs:30-32 | Y is nibble 2 |
| Chip8.Instruction.N | src/chip8.rs:35-37 | N is nibble 3 |
| Chip8.Instruction.NN | src/chip8.rs:40-42 | NN is the low byte, nibbles 2 and 3 |
| Chip8.Instruction.NNN | src/chip8.rs:45-47 | NNN is at most 0xFFF, is X and NN together, and with the top nibble gives the opcode |
| Chip8.InstructionAt | src/chip8.rs:57-59 | the instruction at byte offset i has address 0x200 + i, top nibble rom[i] >> 4 and low byte rom[i+1] |
| Chip8.Parse | src/chip8.rs:52-76 | the loop returns the list that meets the characterisation: instruction k at 0x200 + 2k with opcode rom[2k]*256 + rom[2k+1]; at most \|rom\|/2 of them; only the last may jump to itself; fewer than \|rom\|/2 only if the last one does. The list also equals the recursive reference definition |
| Chip8.ParsedFromIsParse | src/chip8.rs:56-73 | the reference definition from any even offset decodes consecutive pairs and stops only after a jump to self or at the end |
| Chip8.ParsedIsParse | src/chip8.rs:52-76 | the reference definition meets the characterisation |
| Chip8.ParseUnique | src/chip8.rs:52-76 | two lists that meet the characterisation are equal |
| Chip8.ParseIgnoresTrailingByte | src/chip8.rs:56 | a trailing odd byte is never decoded: the result for the ROM without it is the same |
| Chip8.Classify | src/chip8.rs:89-130 | the form is Unknown exactly for the unrecognised patterns: 5 and 9 with N != 0, 8XY8-8XYD and 8XYF, unlisted EX__ and FX__ low bytes. An Unknown keeps the opcode |
| Chip8.ClassifyZeroGroup | src/chip8.rs:93-95 | 00E0 is CLS and 00EE is RET, both ahead of SYS; every other 0NNN is SYS |
| Chip8.Decode | src/chip8.rs:92-129 | the arms on the four nibbles: Unknown exactly for the unrecognised patterns, with the opcode rebuilt from the nibbles |
| Chip8.DecodeAlu | src/chip8.rs:103-111 | the 8XYN arms: unknown exactly for N in 8..D or F |
| Chip8.DecodeMisc | src/chip8.rs:119-127 | the FXNN arms: unknown exactly for low bytes other than 07, 0A, 15, 18, 1E, 29, 33, 55 and 65 |
| Chip8.AddressPattern | src/chip8.rs:45-47 | the nibbles of a GNNN pattern give back the 12-bit address |
| Chip8.ByteOperand | src/chip8.rs:40-42 | the nibbles of a GXNN pattern give back the byte |
| Chip8.FieldsDecode | src/chip8.rs:92-129 | every nibble pattern decodes to a well-formed form whose pattern is the same nibbles |
| Chip8.DecodeFields | src/chip8.rs:92-129 | the pattern of a well-formed form decodes to that form |
| Chip8.EncodeClassify | src/chip8.rs:89-130 | every opcode is the encoding of the form it is classified as, so distinct opcodes get distinct forms |
| Chip8.ClassifyEncode | src/chip8.rs:89-130 | the encoding of a well-formed form is classified as that form, at any address |
| Chip8.Unpack | src/chip8.rs:16-22 | nibbles put together into an opcode are read back unchanged |
| Z80.ItemBytes | src/codegen.rs:986-1003 | `emit` appends one byte, `emit16` and `emit_label_ref` two, `label` none |
| Z80.BytesAppend | src/codegen.rs:986-994 | two emission sequences append their bytes in order |
| Z80.RefsAppend | src/codegen.rs:1000-1003 | the fixups of two sequences are the first's, then the second's at offsets after the first's bytes |
| Z80.DefsAppend | src/codegen.rs:996-998 | the labels of two sequences are the second's applied over the first's: later definitions win |
| Z80.AppendOne | src/codegen.rs:986-1003 | one more call appends its bytes, a fixup at the current pc for a reference, a definition at the current pc for a label |
| Z80.PairItems | src/codegen.rs:1017-1099 | a two-part helper such as `ld_a_n` or `jp_label` appends both parts' bytes, with a fixup where a label is referenced |
| Z80.RefsWithin | src/codegen.rs:1000-1003 | before pc wraps, every fixup a sequence records lies inside the bytes it appends |
| Z80.PlainRecordsNothing | src/codegen.rs:1060-1151 | helpers that emit only bytes and words record no fixup and define no label |
| Z80.BytesOfOps | src/codegen.rs:1060-1151 | single-byte helpers append exactly their opcodes |
| Translation.C8LabelInjective | src/codegen.rs:63-65 | two addresses with the same `c8_` label are equal |
| Translation.Translate | src/codegen.rs:431-979 | an error exactly for a JP or CALL whose target is not a parsed address, with the message naming the target in three hex digits |
| Translation.LdByteCode | src/codegen.rs:549-556 | 6XNN appends exactly 3E nn 32 x 80, with no fixup and no label |
| Translation.AddByteCode | src/codegen.rs:557-565 | 7XNN appends exactly 3A x 80 C6 nn 32 x 80, with no fixup and no label |
| Translation.NothingForSysOrUnknown | src/codegen.rs:463-467 | SYS and unrecognised opcodes append nothing and succeed |
| Translation.SkipIfEqualCode | src/codegen.rs:508-523 | 3XNN appends `LD A,(Vx); CP nn`, then a JP Z with a fixup naming the label of addr+4 only when that label exists; never an error |
| Translation.CompareThenJump | src/codegen.rs:508-523 | the compare-and-skip bytes and fixup, with the jump present or absent |
| Translation.FontRomBytes | src/codegen.rs:244-276 | the bytes after label `font_rom` are the 80-byte hex font |
| Codegen.Patched | src/codegen.rs:1005-1014 | patching keeps the buffer length |
| Codegen.PatchedAt | src/codegen.rs:1005-1014 | with non-overlapping fixups, each fixup's two bytes hold its label's address, low byte first |
| Codegen.PatchedElsewhere | src/codegen.rs:1005-1014 | a byte that no fixup covers keeps its value |
| Codegen.PatchedOutside | src/codegen.rs:1005-1014 | fixups inside a range leave the bytes before and after it unchanged |
| Codegen.FirstUndefinedAt | src/codegen.rs:1006-1008 | when the first undefined label is at fixup i, the reported name is that fixup's |
| Codegen.HeaderBytes | src/codegen.rs:120-129 | the header's calls append exactly `JP 0x0100` and zeros up to 0x0100, with no fixup and no label |
| Codegen.JumpEffect | src/codegen.rs:1016-1019 | `jp_label` appends `JP` and a placeholder, records one fixup at the placeholder and defines nothing |
| Codegen.MainEffect | src/codegen.rs:72-79 | label `main` is defined at the jump it precedes, which is to `c8_200`, or to `halt` when there is no instruction |
| Codegen.HaltEffect | src/codegen.rs:89-93 | the halt loop appends `HALT; JP halt`, records the jump's fixup, and defines `halt` at the HALT and `chip8_rom_data` right after the loop |
| Codegen.PostNoC8 | src/codegen.rs:89-98 | nothing after the instructions defines a `c8_` label |
| Codegen.ImageBytes | src/codegen.rs:68-98 | the buffer `compile` emits is the header's bytes, then the body's, then the ROM |
| Codegen.ImageRefs | src/codegen.rs:68-98 | before pc wraps, every fixup lies after the header and before the ROM copy |
| Codegen.PatchKeepsEnds | src/codegen.rs:101 | patching fixups that lie between the header and the ROM copy leaves both as they were |
| Codegen.ImageLayout | src/codegen.rs:68-101 | before pc wraps, the patched buffer starts with the header and ends with the ROM copy |
| Codegen.ListingAppend | src/codegen.rs:83-87 | the code for two lists of instructions is the code for the first, then that for the second |
| Codegen.ProgramStep | src/codegen.rs:83-87 | one more round of the instruction loop appends that instruction's label, then its code |
| Codegen.ProgramLayout | src/codegen.rs:83-87 | in a buffer that holds the instructions' code between calls defining no `c8_` label, each instruction's label stands for the offset of its code, and that code lies there |
| Codegen.AllHoldEach | src/codegen.rs:83-87 | a property checked element by element from the end holds of every element, and conversely |
| Codegen.TargetsKnownAll | src/codegen.rs:83-87 | the loop's "no unknown target so far" is "no instruction in the list has an unknown JP or CALL target" |
| Codegen.LabelsForParsedStep | src/codegen.rs:63-66 | adding the next address's label gives the label table for one more instruction |
| Codegen.ReplayEffect | src/codegen.rs:986-1003 | a fresh compiler that performs a list of buffer calls holds their bytes, their label definitions and their fixups |
| Codegen.ReplayAppend | src/codegen.rs:986-1003 | calls performed after others append their bytes, define their labels over the earlier table and record their fixups after the earlier ones |
| Codegen.Compiler.constructor | src/codegen.rs:44-53 | everything empty, pc 0 |
| Codegen.Compiler.Emit | src/codegen.rs:986-989 | one byte appended; pc is still the buffer length modulo 2^16 |
| Codegen.Compiler.Emit16 | src/codegen.rs:991-994 | low byte, then high byte appended |
| Codegen.Compiler.Label | src/codegen.rs:996-998 | the name maps to the current pc, replacing an earlier definition |
| Codegen.Compiler.EmitLabelRef | src/codegen.rs:1000-1003 | `(pc, name)` recorded, then two zero bytes appended |
| Codegen.Compiler.Perform | src/codegen.rs:986-1003 | one buffer call, by kind, recorded in the history |
| Codegen.Compiler.Assemble | src/codegen.rs:1016-1151 | a sequence of helper calls appends `Bytes`, records `Refs` and defines `Defs` |
| Codegen.Compiler.GenerateHeader | src/codegen.rs:120-129 | the buffer is `JP 0x0100` followed by zeros up to 0x0100, emitted as those calls |
| Codegen.Compiler.GenerateInit | src/codegen.rs:131-172 | the start-up calls (`InitItems`) are performed |
| Codegen.Compiler.GenerateRuntime | src/codegen.rs:174-429 | the runtime calls (`RuntimeItems`) are performed |
| Codegen.Compiler.ResolveRefs | src/codegen.rs:1005-1014 | success exactly when every fixup's label is defined, and the buffer is then patched in order; otherwise "Undefined label: " with the first such name. The length, labels and fixups never change |
| Codegen.Compiler.Compile | src/codegen.rs:55-113 | labels for every parsed address. An unknown JP or CALL target gives the first such instruction's error. Success: the calls are header, start-up code, runtime, `main` jump, each instruction's label and code, halt loop and ROM; every fixup is resolved and patched; each `c8_` label stands for its instruction's code; the image is the 32768 bytes of the buffer, cut or zero-padded; before pc wraps, the buffer starts with the header and ends with the ROM |
| Codegen.Compiler.Link | src/codegen.rs:100-112 | `resolve_refs`, then the 32768-byte image: success exactly when every fixup's label is defined, the patched buffer, and before pc wraps its header and ROM copy kept |
| Codegen.Compiler.EmitProgram | src/codegen.rs:55-98 | the two passes of `compile`: success exactly when no target is unknown, otherwise the first such instruction's error; on success the calls in order, and each instruction's label at the offset of its code, which lies there |
| Codegen.Compiler.EmitCode | src/codegen.rs:68-98 | success exactly when no target is unknown, otherwise the first such instruction's error; on success header, start-up code, runtime, `main` jump, the instructions, halt loop and ROM were emitted |
| Codegen.Compiler.EmitPrologue | src/codegen.rs:68-80 | header, start-up code, runtime and the `main` jump emitted: the buffer starts with the header, ends with `JP` and a placeholder at label `main`, and the last fixup names `c8_200` (or `halt`) |
| Codegen.Compiler.EmitEpilogue | src/codegen.rs:89-98 | `HALT; JP halt` and the ROM bytes appended, with labels `halt` and `chip8_rom_data` and the jump's fixup |
| Codegen.Compiler.LabelParsed | src/codegen.rs:62-66 | the CHIP-8 label table maps exactly the parsed addresses, each to its `c8_` label |
| Codegen.Compiler.CompileInstruction | src/codegen.rs:431-979 | the instruction's calls are performed; an error exactly for an unknown JP or CALL target, and then labels and fixups are unchanged and the buffer has grown only by a CALL's return-address push (src/codegen.rs:481-503) |
| Codegen.Compiler.CompileInstructions | src/codegen.rs:82-87 | success exactly when no instruction has an unknown target, with each instruction's label and code emitted in order; otherwise the error of the first one that has, after the code of those before it and its own partial code |
| Codegen.Compiler.EmbedRom | src/codegen.rs:94-97 | the ROM bytes appended verbatim |
| Codegen.Compiler.RomImage | src/codegen.rs:102-110 | 32768 bytes: the buffer's where it has them, zero after |
| Runtime.XorBitsTwice | src/codegen.rs:357-359 | XOR with the same byte twice restores the byte |
| Runtime.OrBitsZero | src/codegen.rs:361-363 | the OR of the collision bits is zero exactly when both operands are |
| Runtime.RamAddress | src/codegen.rs:891-897 | I from 0x200 on maps to 0x8400 + (I - 0x200); I below 0x200 maps to 0x8200 + I, the display buffer for I < 0x100 and the font area 0x8300-0x83FF for 0x100 <= I < 0x200 |
| Runtime.ZeroFill | src/codegen.rs:142-151 | the `init_clear`/`cls_loop` loop zeroes exactly its range and nothing else |
| Runtime.Cls | src/codegen.rs:212-225 | the display is blank, every other byte outside the stack unchanged |
| Runtime.CopyLoop | src/codegen.rs:228-241 | the byte-copy loop's memory is `CopyRun` of the old memory |
| Runtime.CopyRunFrame | src/codegen.rs:233-240 | the copy writes only its destination bytes |
| Runtime.CopyRunCopies | src/codegen.rs:233-240 | without overlap or wrap, each destination byte gets the source byte at the same offset |
| Runtime.CopyRunSlice | src/codegen.rs:233-240 | the destination range equals the old source range |
| Runtime.CopyFont | src/codegen.rs:228-241 | `copy_font` copies 80 bytes from `font_rom` to FONT_DATA |
| Runtime.StoreRegs | src/codegen.rs:931-950 | FX55 copies V0..Vx to `RamAddress(I)` on |
| Runtime.LoadRegs | src/codegen.rs:953-971 | FX65 copies from `RamAddress(I)` on to V0..Vx |
| Runtime.StoreThenLoad | src/codegen.rs:931-971 | FX55 stores V0..Vx and changes nothing else; a following FX65 with the same I and x leaves memory as it is |
| Runtime.ReloadUnchanged | src/codegen.rs:953-971 | FX65 over registers that already equal the RAM bytes changes nothing |
| Runtime.InitRegisters | src/codegen.rs:141-159 | the 32 register bytes are zero, except the RNG seed 0xAC 0xE1 |
| Runtime.CopyFontEffect | src/codegen.rs:228-276 | with the font at `font_rom`, FONT_DATA holds the font afterwards and nothing else changes |
| Runtime.Init | src/codegen.rs:131-172 | registers clear but for the RNG seed, display blank, font at FONT_DATA, the rest outside the stack unchanged |
| Runtime.ScreenAddress | src/codegen.rs:728-747 | the screen byte lies in 0x8200..0x82FF, at row Vy & 31 and byte column (Vx & 63) >> 3 |
| Runtime.SpriteSource | src/codegen.rs:749-779 | FONT_DATA + I for I < 0x50, otherwise `chip8_rom_data` + (I - 0x200) |
| Runtime.SpriteFromRom | src/codegen.rs:768-779 | a sprite at a ROM address reads the ROM byte the image carries there |
| Runtime.DrawSprite | src/codegen.rs:343-380 | memory after `DrawRows` for B rows, B = 0 meaning 256; A is 1 if some row collided, else 0 |
| Runtime.Rows | src/codegen.rs:374-375 | `dec b; jr nz` from B = 0 runs 256 rounds |
| Runtime.DrawRowsFrame | src/codegen.rs:343-380 | only the covered screen rows change |
| Runtime.DrawRowsFirst | src/codegen.rs:347-359 | the first row becomes screen XOR sprite, and later rows leave it alone |
| Runtime.DrawRowsXor | src/codegen.rs:343-380 | for a sprite apart from the rows, each screen row becomes itself XOR its sprite byte |
| Runtime.DrawRowsHit | src/codegen.rs:343-380 | the flag ends clear exactly when it started clear and no row's old screen AND sprite is non-zero |
| Runtime.Rows8Update | src/codegen.rs:343-380 | writing off the rows leaves the rows alone |
| Runtime.XorRowsTwice | src/codegen.rs:357-359 | XORing the same sprite in twice gives back the rows |
| Runtime.SameRowsSameMemory | src/codegen.rs:343-380 | memories equal on the rows and off them are equal |
| Runtime.DrawTwice | src/codegen.rs:343-380 | drawing the same sprite twice at the same place restores memory |
| Runtime.SecondRowPastBottom | src/codegen.rs:369-372 | a sprite started on the last line puts its second row at the font area, unclipped |
| Runtime.Drw | src/codegen.rs:721-785 | DXYN draws from `SpriteSource(I)` at `ScreenAddress(Vx, Vy)` for N rows and sets VF to the collision flag; memory outside the stack changes in no other way |
| Runtime.FontOffset | src/codegen.rs:865-877 | I = (Vx & 0xF) * 5, below 0x50 and a multiple of 5 |
| Runtime.LoadFontAddress | src/codegen.rs:865-884 | FX29 stores that offset in I, low byte first |
| Runtime.FontGlyph | src/codegen.rs:865-884 | with the font loaded, FX29 then DXYN reads the glyph of the low digit of Vx |
| Runtime.RepeatedSubtract | src/codegen.rs:899-905 | B counts the subtractions and A keeps the remainder: B * unit + A = start, A < unit |
| Runtime.StoreBcd | src/codegen.rs:887-928 | FX33 stores v / 100, v % 100 / 10 and v % 10 at `RamAddress(I)` and the next two bytes |
| Runtime.Digits | src/codegen.rs:899-919 | the quotients of the two subtraction loops are the decimal digits |

## Left out

- The command line of `src/main.rs` (arguments, file reading and writing,
  exit codes): I/O.
- The text of `disassemble` and `disasm_instruction`: only which form is
  chosen is modelled, not the mnemonic strings or their printing.
- The serial routines `acia_init`, `print_char`, `print_banner`,
  `get_key`, `wait_key` and `refresh_display`. Their bytes are part of
  `RuntimeItems`, but what they do is port I/O and busy-waiting, so their
  effect on the terminal is not modelled. `Runtime.Cls` and `Runtime.Drw`
  stop before the jump to `refresh_display`.
- The `rng` routine: its bytes are emitted, but its output is not
  modelled. Only the seed 0xAC 0xE1 that `init` writes is.
- A Z80 interpreter. The runtime methods model what each emitted loop
  computes on memory, not the execution of the emitted bytes, so a
  mismatch between `Translation`'s items and `Runtime`'s methods is not
  excluded.
- Writes to the Z80 stack. `init` sets SP to 0, so the stack grows down
  from 0xFFFF, inside CHIP-8 RAM. No stack write is modelled: not the
  return address of any `call`, and not the pushes in DXYN, `draw_sprite`,
  FX33, `refresh_display` or `print_char`.
- Runtime.Init, Runtime.Cls, Runtime.DrawSprite, Runtime.Drw and
  Runtime.StoreBcd: what they say about the rest of memory holds only
  outside the stack bytes that the Z80 code writes through its calls and
  pushes (for `cls`, through the jump to `refresh_display`).
- BNNN and 00EE: they return to a CHIP-8 address as if it were a Z80
  address, so only their bytes are modelled.
- `embed_font`, which does nothing, and `HashMap` iteration order; the
  maps are Dafny maps.
- The warning that `compile_instruction` prints to standard error for a
  3XNN skip whose target has no label (src/codegen.rs:519): output only;
  the missing jump itself is modelled.
- Codegen.Compiler.Compile: success is not proved for a ROM whose targets
  are all known. The contract states that an error then is the
  "Undefined label" of `resolve_refs` with the first unresolved name, but
  not that every label the emitted code refers to is defined.
- Codegen.Compiler.Compile: requires a fresh compiler. The Rust method can
  be called on a used one, and would then keep the earlier labels and
  fixups.
- Codegen.Compiler.Compile: on an error the compiler's fields keep
  whatever was emitted before it. The model does not state their contents
  then, only the error.
- Codegen.Compiler.Compile: the header at the start of the buffer and the
  ROM copy at its end are stated only while the buffer is at most 64 KiB,
  that is before pc wraps. Past that, fixups can overlap the header.
- Codegen.PatchedAt: requires fixups that do not overlap, which holds
  before pc wraps.
- Chip8.Parse: requires a ROM of at most 0xFE00 bytes, so that
  `0x200 + i` fits in a `u16`.
- Runtime.CopyLoop and Runtime.ZeroFill: model `dec b; jr nz` and
  `dec bc; ld a,b; or c; jr nz` for the counts they are used with, which
  are never zero. With a zero count the model writes nothing, where the
  Z80 code would run 256 or 65536 rounds.
- Runtime.DrawRowsXor, Runtime.DrawRowsHit, Runtime.DrawTwice and
  Runtime.StoreThenLoad: state their effect only when the source and
  destination ranges neither overlap nor wrap past 0xFFFF. `DrawRows` and
  `CopyRun` themselves model overlap and wrap byte by byte.
- Runtime.Drw: `romData`, the address of `chip8_rom_data`, is a
  parameter. It is fixed only when the image is assembled.
