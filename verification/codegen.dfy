/** The one-pass assembler of src/codegen.rs: an append-only byte buffer, a
    label table and a list of fixups that `resolve_refs` back-patches, and
    `compile`, which drives it over a CHIP-8 ROM. */
module Codegen {
  import opened Types
  import opened Chip8
  import opened Z80
  import opened Translation

  /** The buffer with the little-endian bytes of `target` written at `at`
      and `at + 1`. */
  function PatchAt(code: seq<u8>, at: nat, target: u16): (r: seq<u8>)
    requires at + 2 <= |code|
    ensures |r| == |code|
  {
    code[at := Lo(target)][at + 1 := Hi(target)]
  }

  /** What `generate_header` writes at address 0: `JP CODE_START`, then
      zeros up to CODE_START. */
  const HEADER: seq<u8> := [0xC3, Lo(CODE_START), Hi(CODE_START)] + Zeros(CODE_START - 3)

  /** n zero bytes. */
  function Zeros(n: nat): (z: seq<u8>)
    ensures |z| == n && forall i :: 0 <= i < n ==> z[i] == 0
  {
    seq(n, _ => 0)
  }

  /** A `JP` whose address is still the placeholder. */
  const JUMP: seq<u8> := [0xC3, 0, 0]

  /** `HALT` followed by the placeholder `JP` back to it. */
  const HALT_LOOP: seq<u8> := [HALT, 0xC3, 0, 0]

  /** Every fixup has both its bytes inside a buffer of `size` bytes. */
  predicate InBounds(refs: seq<(u16, string)>, size: nat)
  {
    forall k :: 0 <= k < |refs| ==> refs[k].0 as int + 2 <= size
  }

  /** Every fixup names a defined label. */
  predicate Resolvable(refs: seq<(u16, string)>, labels: map<string, u16>)
  {
    forall k :: 0 <= k < |refs| ==> refs[k].1 in labels
  }

  /** Fixups in strictly increasing, non-overlapping positions: what the
      buffer records as long as pc has not wrapped. */
  predicate Ascending(refs: seq<(u16, string)>)
  {
    forall j, k :: 0 <= j < k < |refs| ==> refs[j].0 as int + 2 <= refs[k].0
  }

  /** The buffer after `resolve_refs` has patched the fixups one by one, in
      the order they were recorded. */
  function Patched(code: seq<u8>, refs: seq<(u16, string)>, labels: map<string, u16>): (r: seq<u8>)
    requires InBounds(refs, |code|) && Resolvable(refs, labels)
    ensures |r| == |code|
  {
    if refs == [] then code
    else
      var last := refs[|refs| - 1];
      PatchAt(Patched(code, refs[..|refs| - 1], labels), last.0, labels[last.1])
  }

  /** The label of the first fixup that names no defined label. */
  function FirstUndefined(refs: seq<(u16, string)>, labels: map<string, u16>): string
    requires !Resolvable(refs, labels)
  {
    if refs[0].1 !in labels then refs[0].1 else FirstUndefined(refs[1..], labels)
  }

  lemma {:induction false} FirstUndefinedAt(refs: seq<(u16, string)>, labels: map<string, u16>, i: nat)
    requires i < |refs| && Resolvable(refs[..i], labels) && refs[i].1 !in labels
    ensures !Resolvable(refs, labels) && FirstUndefined(refs, labels) == refs[i].1
  {
    if i > 0 {
      assert refs[0] == refs[..i][0];
      assert refs[1..][..i - 1] == refs[..i][1..];
      FirstUndefinedAt(refs[1..], labels, i - 1);
    }
  }

  /** With non-overlapping fixups, each one holds the little-endian address
      of its label once all are patched. */
  lemma {:induction false} PatchedAt(code: seq<u8>, refs: seq<(u16, string)>, labels: map<string, u16>, k: nat)
    requires InBounds(refs, |code|) && Resolvable(refs, labels) && Ascending(refs) && k < |refs|
    ensures var r, a := Patched(code, refs, labels), refs[k].0;
      r[a] == Lo(labels[refs[k].1]) && r[a + 1] == Hi(labels[refs[k].1])
    decreases |refs|
  {
    var init := refs[..|refs| - 1];
    if k < |refs| - 1 {
      assert init[k] == refs[k];
      PatchedAt(code, init, labels, k);
    }
  }

  /** A byte that no fixup covers keeps its value. */
  lemma {:induction false} PatchedElsewhere(code: seq<u8>, refs: seq<(u16, string)>, labels: map<string, u16>, i: nat)
    requires InBounds(refs, |code|) && Resolvable(refs, labels) && i < |code|
    requires forall k :: 0 <= k < |refs| ==> i != refs[k].0 && i != refs[k].0 as int + 1
    ensures Patched(code, refs, labels)[i] == code[i]
    decreases |refs|
  {
    if refs != [] {
      var init := refs[..|refs| - 1];
      assert forall k :: 0 <= k < |init| ==> init[k] == refs[k];
      PatchedElsewhere(code, init, labels, i);
    }
  }

  /** Every fixup lies in `[lo, hi)`. */
  predicate RefsBetween(refs: seq<(u16, string)>, lo: nat, hi: nat)
  {
    forall k :: 0 <= k < |refs| ==> lo <= refs[k].0 && refs[k].0 as int + 2 <= hi
  }

  /** Fixups that all lie in `[lo, hi)` leave the bytes before and after
      that range as they were. */
  lemma {:induction false} PatchedOutside(code: seq<u8>, refs: seq<(u16, string)>, labels: map<string, u16>, lo: nat, hi: nat)
    requires InBounds(refs, |code|) && Resolvable(refs, labels) && lo <= hi <= |code|
    requires RefsBetween(refs, lo, hi)
    ensures Patched(code, refs, labels)[..lo] == code[..lo]
    ensures Patched(code, refs, labels)[hi..] == code[hi..]
    decreases |refs|
  {
    if refs != [] {
      var init := refs[..|refs| - 1];
      assert forall k :: 0 <= k < |init| ==> init[k] == refs[k];
      PatchedOutside(code, init, labels, lo, hi);
    }
  }

  /** The code of a list of instructions, one after the other, each under
      its `c8_` label, given what is emitted for each. */
  function Listing(insts: seq<Instruction>, emit: Instruction -> seq<Item>): seq<Item>
  {
    if insts == [] then []
    else Listing(insts[..|insts| - 1], emit) + ([Mark(C8Label(insts[|insts| - 1].addr))] + emit(insts[|insts| - 1]))
  }

  /** What `compile_instruction` emits for each instruction. */
  function EmitFor(table: map<u16, string>): Instruction -> seq<Item>
  {
    inst => Emitted(inst, table)
  }

  /** The code `compile` emits for the instructions. */
  function ProgramItems(insts: seq<Instruction>, table: map<u16, string>): seq<Item>
  {
    Listing(insts, EmitFor(table))
  }

  /** What `generate_header` emits: `JP CODE_START`, then a zero byte for
      every address up to CODE_START. */
  function HeaderItems(): seq<Item>
  {
    [Byte(0xC3), Word(CODE_START)] + Ops(Zeros(CODE_START - 3))
  }

  /** At label `main`, a jump to the first instruction, or to `halt` when
      the ROM has none. */
  function MainItems(nonEmpty: bool): seq<Item>
  {
    [Mark("main")] + JpLabel(if nonEmpty then C8Label(LOAD_ADDR) else "halt")
  }

  /** What `compile` emits after the instructions and before the ROM copy:
      `halt: HALT; JP halt`, then the label `chip8_rom_data`. */
  function HaltItems(): seq<Item>
  {
    [Mark("halt"), Byte(HALT)] + JpLabel("halt") + [Mark("chip8_rom_data")]
  }

  /** The header emits exactly HEADER, with no fixup and no label. */
  lemma HeaderBytes()
    ensures Bytes(HeaderItems()) == HEADER && Refs(0, HeaderItems()) == []
  {
    var jump, zeros := [Byte(0xC3), Word(CODE_START)], Ops(Zeros(CODE_START - 3));
    PairItems(Byte(0xC3), Word(CODE_START), 0);
    assert Bytes(jump) == [0xC3, Lo(CODE_START), Hi(CODE_START)];
    BytesOfOps(Zeros(CODE_START - 3));
    BytesAppend(jump, zeros);
    assert Plain(jump);
    PlainAppend(jump, zeros);
    PlainRecordsNothing(map[], 0, jump + zeros);
  }

  /** One more zero byte of the header, as bytes and as calls. */
  lemma HeaderStep(e: seq<Item>, n: nat)
    requires 3 <= n < 0x100
    ensures HEADER[..n] + [0] == HEADER[..n + 1]
    ensures e + Ops(Zeros(n - 3)) + [Byte(0)] == e + Ops(Zeros(n - 2))
  {
    assert Ops(Zeros(n - 2)) == Ops(Zeros(n - 3)) + [Byte(0)];
  }

  /** The whole header, as bytes and as calls. */
  lemma HeaderDone(e: seq<Item>)
    ensures |HEADER| == 0x100 && HEADER[..0x100] == HEADER
    ensures e + [Byte(0xC3)] + [Word(CODE_START)] + Ops(Zeros(CODE_START - 3)) == e + HeaderItems()
  {
  }

  /** A jump to a label appends `JP` and a placeholder, records one fixup
      and defines nothing. */
  lemma JumpEffect(labels: map<string, u16>, start: nat, l: string)
    ensures Bytes(JpLabel(l)) == JUMP
    ensures Refs(start, JpLabel(l)) == [(Wrap16(start + 1), l)]
    ensures Defs(labels, start, JpLabel(l)) == labels
  {
    assert [] + [Byte(0xC3)] == [Byte(0xC3)] && [Byte(0xC3)] + [Ref(l)] == JpLabel(l);
    AppendOne(labels, start, [], Byte(0xC3));
    AppendOne(labels, start, [Byte(0xC3)], Ref(l));
  }

  /** Label `main` stands for the jump that follows it. */
  lemma MainEffect(labels: map<string, u16>, start: nat, nonEmpty: bool)
    ensures Bytes(MainItems(nonEmpty)) == JUMP
    ensures Refs(start, MainItems(nonEmpty)) == [(Wrap16(start + 1), if nonEmpty then C8Label(LOAD_ADDR) else "halt")]
    ensures Defs(labels, start, MainItems(nonEmpty)) == labels["main" := Wrap16(start)]
  {
    var target := if nonEmpty then C8Label(LOAD_ADDR) else "halt";
    assert [] + [Mark("main")] == [Mark("main")];
    AppendOne(labels, start, [], Mark("main"));
    JumpEffect(labels["main" := Wrap16(start)], start, target);
    AppendBoth(labels, start, [Mark("main")], JpLabel(target));
  }

  /** The halt loop appends HALT, JP and a placeholder, records the jump's
      fixup and defines `halt` and `chip8_rom_data`. */
  lemma HaltEffect(labels: map<string, u16>, start: nat)
    ensures Bytes(HaltItems()) == HALT_LOOP
    ensures Refs(start, HaltItems()) == [(Wrap16(start + 2), "halt")]
    ensures Defs(labels, start, HaltItems()) == labels["halt" := Wrap16(start)]["chip8_rom_data" := Wrap16(start + 4)]
  {
    var a := [Mark("halt"), Byte(HALT)];
    assert [] + [Mark("halt")] == [Mark("halt")] && [Mark("halt")] + [Byte(HALT)] == a;
    AppendOne(labels, start, [], Mark("halt"));
    AppendOne(labels, start, [Mark("halt")], Byte(HALT));
    JumpEffect(labels["halt" := Wrap16(start)], start + 1, "halt");
    AppendBoth(labels, start, a, JpLabel("halt"));
    AppendOne(labels, start, a + JpLabel("halt"), Mark("chip8_rom_data"));
  }

  /** Nothing after the instructions defines a `c8_` label. */
  lemma PostNoC8(rom: seq<u8>)
    ensures NoC8Mark(HaltItems() + Ops(rom))
  {
    assert "halt"[0] == 'h' && "chip8_rom_data"[1] == 'h';
  }

  /** Calls that append no byte record no fixup. */
  lemma {:induction false} NoBytesNoRefs(start: nat, items: seq<Item>)
    requires Bytes(items) == []
    ensures Refs(start, items) == []
    decreases |items|
  {
    if items != [] {
      NoBytesNoRefs(start, items[1..]);
    }
  }

  /** The buffer `compile` emits, from an empty one: the header, then the
      body, then the ROM copy. */
  lemma ImageBytes(e: seq<Item>, head: seq<Item>, body: seq<Item>, rom: seq<u8>, header: seq<u8>)
    requires Bytes(e) == [] && Bytes(head) == header
    ensures Bytes(e + head + body + Ops(rom)) == header + (Bytes(body) + rom)
  {
    BytesAppend(e, head);
    assert Bytes(e + head) == header;
    BytesAppend(e + head, body);
    BytesAppend(e + head + body, Ops(rom));
    BytesOfOps(rom);
    Regroup(header, Bytes(body), rom);
  }

  /** Before pc wraps, every fixup of that buffer lies between the header
      and the ROM copy. */
  lemma ImageRefs(e: seq<Item>, head: seq<Item>, body: seq<Item>, rom: seq<u8>)
    requires Bytes(e) == [] && |Bytes(head)| == 0x100 && Refs(0, head) == []
    requires 0x100 + |Bytes(body)| + |rom| <= 0x10000
    ensures RefsBetween(Refs(0, e + head + body + Ops(rom)), 0x100, 0x100 + |Bytes(body)|)
  {
    var a := e + head;
    HeadRefs(e, head);
    RefsAppend(0, a, body);
    BytesAppend(a, body);
    TailRefs(a + body, rom);
    RefsWithin(0x100, body);
  }

  /** The header, emitted from empty, records no fixup. */
  lemma HeadRefs(e: seq<Item>, head: seq<Item>)
    requires Bytes(e) == [] && |Bytes(head)| == 0x100 && Refs(0, head) == []
    ensures Refs(0, e + head) == [] && |Bytes(e + head)| == 0x100
  {
    NoBytesNoRefs(0, e);
    RefsAppend(0, e, head);
    BytesAppend(e, head);
  }

  /** The ROM copy records no fixup. */
  lemma TailRefs(a: seq<Item>, rom: seq<u8>)
    ensures Refs(0, a + Ops(rom)) == Refs(0, a)
  {
    RefsAppend(0, a, Ops(rom));
    PlainRecordsNothing(map[], |Bytes(a)|, Ops(rom));
  }

  /** Before pc wraps, patching the buffer `compile` emits leaves the
      header and the ROM copy as they were. */
  lemma ImageLayout(e: seq<Item>, body: seq<Item>, rom: seq<u8>, refs: seq<(u16, string)>,
                    labels: map<string, u16>, unpatched: seq<u8>, code: seq<u8>)
    requires Bytes(e) == []
    requires unpatched == Bytes(e + HeaderItems() + body + Ops(rom))
    requires refs == Refs(0, e + HeaderItems() + body + Ops(rom))
    requires InBounds(refs, |unpatched|) && Resolvable(refs, labels)
    requires code == Patched(unpatched, refs, labels) && |code| <= 0x10000
    ensures HEADER <= code && 0x100 + |rom| <= |code| && code[|code| - |rom|..] == rom
  {
    HeaderBytes();
    ImageLayoutFor(e, HeaderItems(), body, rom, refs, labels, unpatched, code, HEADER);
  }

  /** The same for any head that emits `header`, 256 bytes and no fixup. */
  lemma ImageLayoutFor(e: seq<Item>, head: seq<Item>, body: seq<Item>, rom: seq<u8>, refs: seq<(u16, string)>,
                       labels: map<string, u16>, unpatched: seq<u8>, code: seq<u8>, header: seq<u8>)
    requires Bytes(e) == [] && Bytes(head) == header && |header| == 0x100 && Refs(0, head) == []
    requires unpatched == Bytes(e + head + body + Ops(rom))
    requires refs == Refs(0, e + head + body + Ops(rom))
    requires InBounds(refs, |unpatched|) && Resolvable(refs, labels)
    requires code == Patched(unpatched, refs, labels) && |code| <= 0x10000
    ensures header <= code && 0x100 + |rom| <= |code| && code[|code| - |rom|..] == rom
  {
    ImageBytes(e, head, body, rom, header);
    ImageRefs(e, head, body, rom);
    PatchKeepsEnds(unpatched, header, Bytes(body), rom, refs, labels, code);
  }

  /** Patching only between the header and the ROM copy leaves both. */
  lemma PatchKeepsEnds(unpatched: seq<u8>, header: seq<u8>, mid: seq<u8>, rom: seq<u8>, refs: seq<(u16, string)>,
                       labels: map<string, u16>, code: seq<u8>)
    requires unpatched == header + (mid + rom) && |header| == 0x100
    requires InBounds(refs, |unpatched|) && Resolvable(refs, labels)
    requires RefsBetween(refs, 0x100, 0x100 + |mid|)
    requires code == Patched(unpatched, refs, labels)
    ensures header <= code && 0x100 + |rom| <= |code| && code[|code| - |rom|..] == rom
  {
    PatchedOutside(unpatched, refs, labels, 0x100, 0x100 + |mid|);
    Halves(header, mid + rom);
    assert code[..0x100] == unpatched[..0x100] == header;
    assert code[0x100 + |mid|..] == unpatched[0x100 + |mid|..] == rom;
  }

  /** The parts between a head and a tail, grouped into one body. */
  lemma Nest<T>(e: seq<T>, h: seq<T>, a: seq<T>, b: seq<T>, c: seq<T>, d: seq<T>, f: seq<T>, t: seq<T>)
    ensures e + h + a + b + c + d + f + t == e + h + (a + b + c + d + f) + t
  {
  }

  /** The two halves of a concatenation, cut back out of it. */
  lemma Halves<T>(a: seq<T>, b: seq<T>)
    ensures (a + b)[..|a|] == a && (a + b)[|a|..] == b
  {
  }

  /** A prefix of a list is a prefix of anything appended to it. */
  lemma PrefixOfAppend<T>(p: seq<T>, a: seq<T>, b: seq<T>)
    requires p <= a
    ensures (a + b)[..|p|] == p
  {
    assert (a + b)[..|p|] == a[..|p|];
  }

  /** `label("main")` followed by `jp_label` performs the calls of
      MainItems. */
  lemma MainCalls(h: seq<Item>, nonEmpty: bool)
    ensures var target := if nonEmpty then C8Label(LOAD_ADDR) else "halt";
      h + [Mark("main")] + [Byte(0xC3)] + [Ref(target)] == h + MainItems(nonEmpty)
  {
    var target := if nonEmpty then C8Label(LOAD_ADDR) else "halt";
    assert MainItems(nonEmpty) == [Mark("main"), Byte(0xC3), Ref(target)];
  }

  /** After the header and the routines, the jump at `main` ends the code. */
  lemma PrologueCode(header: seq<u8>, init: seq<u8>, before: seq<u8>, code: seq<u8>, at: u16, refAt: u16)
    requires header == HEADER && header <= init && init <= before
    requires code == before + [0xC3] + [0, 0]
    requires at == Wrap16(|before|) && refAt == Wrap16(at as int + 1)
    ensures |code| >= 0x103 && code[..0x100] == HEADER && code[|code| - 3..] == JUMP
    ensures at == Wrap16(|code| - 3) && refAt == Wrap16(|code| - 2)
  {
    Wrap16Add(|before|, 1);
    assert code == before + JUMP;
    Halves(before, JUMP);
    PrefixOfAppend(HEADER, before, JUMP);
  }

  /** Appending three lists one after the other. */
  lemma Regroup<T>(a: seq<T>, b: seq<T>, c: seq<T>)
    ensures a + b + c == a + (b + c)
  {
  }

  /** The code of instruction k, cut out of the code around it. */
  lemma Unnest<T>(p: seq<T>, x: seq<T>, m: seq<T>, e: seq<T>, y: seq<T>, q: seq<T>)
    ensures p + (x + (m + e) + y) + q == p + x + m + (e + y + q)
  {
  }

  /** The code of two lists of instructions is the code of the first, then
      that of the second. */
  lemma {:induction false} ListingAppend(a: seq<Instruction>, b: seq<Instruction>, emit: Instruction -> seq<Item>)
    ensures Listing(a + b, emit) == Listing(a, emit) + Listing(b, emit)
    decreases |b|
  {
    if b == [] {
      assert a + b == a;
    } else {
      var init, last := b[..|b| - 1], b[|b| - 1];
      var code := [Mark(C8Label(last.addr))] + emit(last);
      assert (a + b)[..|a + b| - 1] == a + init && (a + b)[|a + b| - 1] == last;
      assert Listing(a + b, emit) == Listing(a + init, emit) + code;
      assert Listing(b, emit) == Listing(init, emit) + code;
      ListingAppend(a, init, emit);
      Regroup(Listing(a, emit), Listing(init, emit), code);
    }
  }

  /** The code of instruction k sits between the code of those before it
      and the code of those after it. */
  lemma ListingSplit(insts: seq<Instruction>, emit: Instruction -> seq<Item>, k: nat)
    requires k < |insts|
    ensures Listing(insts, emit)
         == Listing(insts[..k], emit) + ([Mark(C8Label(insts[k].addr))] + emit(insts[k])) + Listing(insts[k + 1..], emit)
  {
    var first := insts[..k + 1];
    assert insts == first + insts[k + 1..];
    assert first[..|first| - 1] == insts[..k] && first[|first| - 1] == insts[k];
    assert Listing(first, emit) == Listing(insts[..k], emit) + ([Mark(C8Label(insts[k].addr))] + emit(insts[k]));
    ListingAppend(first, insts[k + 1..], emit);
  }

  /** A `c8_` label has the form of one. */
  lemma C8Name(a: u16)
    ensures IsC8Name(C8Label(a))
  {
    assert C8Label(a)[..3] == "c8_";
  }

  /** The code of instructions none of which is at address `a` does not
      define the label of `a`, when what is emitted for them defines no
      `c8_` label. */
  lemma {:induction false} ListingNoMark(insts: seq<Instruction>, emit: Instruction -> seq<Item>, a: u16)
    requires forall inst :: NoC8Mark(emit(inst))
    requires forall j :: 0 <= j < |insts| ==> insts[j].addr != a
    ensures NoMark(Listing(insts, emit), C8Label(a))
    decreases |insts|
  {
    if insts != [] {
      var last := insts[|insts| - 1];
      ListingNoMark(insts[..|insts| - 1], emit, a);
      if C8Label(last.addr) == C8Label(a) {
        C8LabelInjective(last.addr, a);
      }
      assert NoC8Mark(emit(last));
      C8Name(a);
    }
  }

  /** What `compile_instruction` emits defines no `c8_` label. */
  lemma EmitForNoC8(table: map<u16, string>)
    ensures forall inst :: NoC8Mark(EmitFor(table)(inst))
  {
    forall inst ensures NoC8Mark(EmitFor(table)(inst)) {
      EmittedLabels(inst, table);
    }
  }

  /** The buffer offset at which the code of instruction k begins, after
      `pre` was emitted before the instructions. */
  function InstOffset(pre: seq<Item>, insts: seq<Instruction>, table: map<u16, string>, k: nat): nat
    requires k <= |insts|
  {
    |Bytes(pre + ProgramItems(insts[..k], table))|
  }

  /** The label of instruction k stands for the offset where its code
      begins. */
  predicate Labelled(labels: map<string, u16>, pre: seq<Item>, insts: seq<Instruction>, table: map<u16, string>, k: nat)
    requires k < |insts|
  {
    var l := C8Label(insts[k].addr);
    l in labels && labels[l] == Wrap16(InstOffset(pre, insts, table, k))
  }

  /** At that offset the buffer holds the code emitted for instruction k. */
  predicate CodeAt(code: seq<u8>, pre: seq<Item>, insts: seq<Instruction>, table: map<u16, string>, k: nat)
    requires k < |insts|
  {
    var off, bytes := InstOffset(pre, insts, table, k), Bytes(Emitted(insts[k], table));
    off + |bytes| <= |code| && code[off..off + |bytes|] == bytes
  }

  /** A label that no later call redefines stands for the offset where it
      was defined. */
  lemma MarkKept(labels: map<string, u16>, start: nat, a: seq<Item>, l: string, rest: seq<Item>)
    requires NoMark(rest, l)
    ensures var d := Defs(labels, start, a + [Mark(l)] + rest); l in d && d[l] == Wrap16(start + |Bytes(a)|)
  {
    AppendOne(labels, start, a, Mark(l));
    AppendBoth(labels, start, a + [Mark(l)], rest);
    DefsKeep(Defs(labels, start, a + [Mark(l)]), start + |Bytes(a + [Mark(l)])|, rest, l);
  }

  /** In the emitted code, the label of instruction k stands for the offset
      where its code begins: later instructions, and whatever follows them
      without a `c8_` label, do not move it. */
  lemma InstructionLabelled(pre: seq<Item>, insts: seq<Instruction>, emit: Instruction -> seq<Item>, post: seq<Item>, k: nat)
    requires k < |insts| && NoC8Mark(post)
    requires forall inst :: NoC8Mark(emit(inst))
    requires forall j :: 0 <= j < |insts| ==> insts[j].addr == LOAD_ADDR + 2 * j
    ensures var all, l := pre + Listing(insts, emit) + post, C8Label(insts[k].addr);
      l in Defs(map[], 0, all) && Defs(map[], 0, all)[l] == Wrap16(|Bytes(pre + Listing(insts[..k], emit))|)
  {
    var l := C8Label(insts[k].addr);
    var a := pre + Listing(insts[..k], emit);
    var rest := emit(insts[k]) + Listing(insts[k + 1..], emit) + post;
    ListingSplit(insts, emit, k);
    Unnest(pre, Listing(insts[..k], emit), [Mark(l)], emit(insts[k]), Listing(insts[k + 1..], emit), post);
    LaterUnmarked(insts, emit, post, k);
    MarkKept(map[], 0, a, l, rest);
  }

  /** Neither the code of instruction k, nor the code after it, defines the
      label of instruction k. */
  lemma LaterUnmarked(insts: seq<Instruction>, emit: Instruction -> seq<Item>, post: seq<Item>, k: nat)
    requires k < |insts| && NoC8Mark(post)
    requires forall inst :: NoC8Mark(emit(inst))
    requires forall j :: 0 <= j < |insts| ==> insts[j].addr == LOAD_ADDR + 2 * j
    ensures NoMark(emit(insts[k]) + Listing(insts[k + 1..], emit) + post, C8Label(insts[k].addr))
  {
    var inst, later := insts[k], insts[k + 1..];
    forall j | 0 <= j < |later| ensures later[j].addr != inst.addr {
      assert later[j] == insts[k + 1 + j];
    }
    ListingNoMark(later, emit, inst.addr);
    C8Name(inst.addr);
    assert NoC8Mark(emit(inst));
  }

  /** In the emitted code, the bytes at that offset are those emitted for
      instruction k. */
  lemma InstructionCode(pre: seq<Item>, insts: seq<Instruction>, emit: Instruction -> seq<Item>, post: seq<Item>, k: nat)
    requires k < |insts|
    ensures var all, off, bytes := pre + Listing(insts, emit) + post, |Bytes(pre + Listing(insts[..k], emit))|, Bytes(emit(insts[k]));
      off + |bytes| <= |Bytes(all)| && Bytes(all)[off..off + |bytes|] == bytes
  {
    var l := C8Label(insts[k].addr);
    var a := pre + Listing(insts[..k], emit) + [Mark(l)];
    var rest := Listing(insts[k + 1..], emit) + post;
    ListingSplit(insts, emit, k);
    assert pre + Listing(insts, emit) + post == a + emit(insts[k]) + rest;
    AppendOne(map[], 0, pre + Listing(insts[..k], emit), Mark(l));
    BytesAppend(a, emit(insts[k]));
    BytesAppend(a + emit(insts[k]), rest);
  }

  /** In a buffer built from calls `pre`, then the instructions, then calls
      `post` that define no `c8_` label, every instruction's label stands
      for the offset of its code, and its code lies there. */
  lemma ProgramLayout(pre: seq<Item>, insts: seq<Instruction>, table: map<u16, string>, post: seq<Item>,
                      labels: map<string, u16>, code: seq<u8>)
    requires forall j :: 0 <= j < |insts| ==> insts[j].addr == LOAD_ADDR + 2 * j
    requires NoC8Mark(post)
    requires labels == Defs(map[], 0, pre + ProgramItems(insts, table) + post)
    requires code == Bytes(pre + ProgramItems(insts, table) + post)
    ensures forall k :: 0 <= k < |insts| ==>
              Labelled(labels, pre, insts, table, k) && CodeAt(code, pre, insts, table, k)
  {
    forall k | 0 <= k < |insts|
      ensures Labelled(labels, pre, insts, table, k) && CodeAt(code, pre, insts, table, k)
    {
      InstructionLabelledAt(pre, insts, table, post, k);
      InstructionCodeAt(pre, insts, table, post, k);
    }
  }

  /** The label of one instruction k in that buffer. */
  lemma InstructionLabelledAt(pre: seq<Item>, insts: seq<Instruction>, table: map<u16, string>, post: seq<Item>, k: nat)
    requires k < |insts| && NoC8Mark(post)
    requires forall j :: 0 <= j < |insts| ==> insts[j].addr == LOAD_ADDR + 2 * j
    ensures Labelled(Defs(map[], 0, pre + ProgramItems(insts, table) + post), pre, insts, table, k)
  {
    var emit := EmitFor(table);
    assert ProgramItems(insts, table) == Listing(insts, emit);
    assert ProgramItems(insts[..k], table) == Listing(insts[..k], emit);
    EmitForNoC8(table);
    InstructionLabelled(pre, insts, emit, post, k);
  }

  /** The code of one instruction k in that buffer. */
  lemma InstructionCodeAt(pre: seq<Item>, insts: seq<Instruction>, table: map<u16, string>, post: seq<Item>, k: nat)
    requires k < |insts|
    ensures CodeAt(Bytes(pre + ProgramItems(insts, table) + post), pre, insts, table, k)
  {
    EmitForApply(table, insts[k]);
    InstructionCode(pre, insts, EmitFor(table), post, k);
  }

  /** What the listing emits for an instruction is what `compile_instruction`
      emits for it. */
  lemma EmitForApply(table: map<u16, string>, inst: Instruction)
    ensures EmitFor(table)(inst) == Emitted(inst, table)
  {
  }

  /** The maps `compile` builds in its first pass: every parsed address to
      its `c8_` label. */
  predicate LabelsForParsed(table: map<u16, string>, count: nat)
  {
    && (forall a: u16 :: a in table <==> LOAD_ADDR <= a < LOAD_ADDR + 2 * count && a % 2 == 0)
    && (forall a :: a in table ==> table[a] == C8Label(a))
  }

  /** Every element of the list satisfies `ok`, checked from the last
      element back, the order in which a loop over the list extends it. */
  predicate AllHold<T>(xs: seq<T>, ok: T -> bool)
  {
    xs == [] || (AllHold(xs[..|xs| - 1], ok) && ok(xs[|xs| - 1]))
  }

  lemma {:induction false} AllHoldEach<T>(xs: seq<T>, ok: T -> bool)
    ensures AllHold(xs, ok) <==> forall k :: 0 <= k < |xs| ==> ok(xs[k])
  {
    if xs != [] {
      var init := xs[..|xs| - 1];
      AllHoldEach(init, ok);
      assert forall k :: 0 <= k < |init| ==> init[k] == xs[k];
    }
  }

  /** Labelling the next address extends the table by one instruction. */
  lemma LabelsForParsedStep(table: map<u16, string>, count: nat, a: u16)
    requires LabelsForParsed(table, count) && a == LOAD_ADDR + 2 * count
    ensures LabelsForParsed(table[a := C8Label(a)], count + 1)
  {
    var t := table[a := C8Label(a)];
    forall b: u16
      ensures b in t <==> LOAD_ADDR <= b < LOAD_ADDR + 2 * (count + 1) && b % 2 == 0
    {
      if b != a {
        assert b in t <==> b in table;
        assert b % 2 == 0 && b < a + 2 ==> b < a;
      }
    }
  }

  /** No instruction in the list is a JP or CALL to an unknown address. */
  predicate TargetsKnown(insts: seq<Instruction>, table: map<u16, string>)
  {
    AllHold(insts, inst => !BadTarget(inst, table))
  }

  /** `msg` is the error `compile` stops with: that of the first
      instruction that is a JP or CALL to an unknown address. */
  predicate StopsAt(insts: seq<Instruction>, table: map<u16, string>, msg: string)
  {
    exists k :: 0 <= k < |insts| && TargetsKnown(insts[..k], table)
                && BadTarget(insts[k], table) && msg == TargetError(insts[k])
  }

  lemma TargetsKnownAll(insts: seq<Instruction>, table: map<u16, string>)
    ensures TargetsKnown(insts, table) <==> forall k :: 0 <= k < |insts| ==> !BadTarget(insts[k], table)
  {
    AllHoldEach(insts, inst => !BadTarget(inst, table));
  }

  /** One more instruction adds its label and then its code. */
  lemma ProgramStep(e: seq<Item>, insts: seq<Instruction>, table: map<u16, string>, k: nat)
    requires k < |insts|
    ensures e + ProgramItems(insts[..k], table) + [Mark(C8Label(insts[k].addr))] + Emitted(insts[k], table)
            == e + ProgramItems(insts[..k + 1], table)
  {
    var p := insts[..k + 1];
    var before, m, x := ProgramItems(insts[..k], table), [Mark(C8Label(insts[k].addr))], Emitted(insts[k], table);
    assert p[..|p| - 1] == insts[..k] && p[|p| - 1] == insts[k];
    assert ProgramItems(p, table) == before + (m + x);
    Regroup(e + before, m, x);
    Regroup(e, before, m + x);
  }

  /** One more instruction whose target is known keeps every target known. */
  lemma KnownStep(insts: seq<Instruction>, table: map<u16, string>, k: nat)
    requires k < |insts| && TargetsKnown(insts[..k], table) && !BadTarget(insts[k], table)
    ensures TargetsKnown(insts[..k + 1], table)
  {
    var p := insts[..k + 1];
    assert p[..|p| - 1] == insts[..k] && p[|p| - 1] == insts[k];
  }

  /** The buffer, label table and fixup list of a compiler. */
  datatype Buffer = Buffer(code: seq<u8>, labels: map<string, u16>, refs: seq<(u16, string)>)

  /** One buffer call on a buffer whose pc is its length modulo 2^16. */
  function Step(b: Buffer, it: Item): Buffer
  {
    var pc := Wrap16(|b.code|);
    match it
    case Byte(x) => b.(code := b.code + [x])
    case Word(w) => b.(code := b.code + [Lo(w), Hi(w)])
    case Ref(name) => Buffer(b.code + [0, 0], b.labels, b.refs + [(pc, name)])
    case Mark(name) => b.(labels := b.labels[name := pc])
  }

  /** The buffer a fresh compiler holds after the calls, in order. */
  function Replay(items: seq<Item>): Buffer
  {
    if items == [] then Buffer([], map[], [])
    else Step(Replay(items[..|items| - 1]), items[|items| - 1])
  }

  /** Calls made after others append their bytes to the buffer, define
      their labels over its table and record their fixups after its own,
      at the offsets where they fall. */
  lemma ReplayAppend(e: seq<Item>, items: seq<Item>)
    ensures var b := Replay(e);
      Replay(e + items) == Buffer(b.code + Bytes(items), Defs(b.labels, |b.code|, items), b.refs + Refs(|b.code|, items))
  {
    ReplayEffect(e);
    ReplayEffect(e + items);
    AppendBoth(map[], 0, e, items);
  }

  /** One more call is one more step. */
  lemma ReplayStep(items: seq<Item>, it: Item)
    ensures Replay(items + [it]) == Step(Replay(items), it)
  {
    assert (items + [it])[..|items|] == items;
  }

  /** Replaying calls appends their bytes, defines their labels and records
      their fixups at the offsets where they fall. */
  lemma {:induction false} ReplayEffect(items: seq<Item>)
    ensures Replay(items) == Buffer(Bytes(items), Defs(map[], 0, items), Refs(0, items))
    decreases |items|
  {
    if items != [] {
      var init, it := items[..|items| - 1], items[|items| - 1];
      assert items == init + [it];
      ReplayEffect(init);
      AppendOne(map[], 0, init, it);
    }
  }

  /** The calls of `generate_init` and of `generate_runtime`, which are the
      same for every ROM. */
  method RoutineItems() returns (init: seq<Item>, runtime: seq<Item>)
    ensures init == InitItems() && runtime == RuntimeItems()
  {
    init := InitItems();
    runtime := RuntimeItems();
  }

  /** Those two lists, built once; a compiler is created from them. */
  class Routines {
    const init: seq<Item>
    const runtime: seq<Item>

    constructor ()
      ensures init == InitItems() && runtime == RuntimeItems()
    {
      var start, routines := RoutineItems();
      init := start;
      runtime := routines;
    }
  }

  /** `Compiler` (src/codegen.rs:33-40), with the buffer calls performed so
      far kept as a ghost history. */
  class Compiler {
    var code: seq<u8>
    var pc: u16
    var labels: map<string, u16>
    var forwardRefs: seq<(u16, string)>
    var chip8Labels: map<u16, string>
    var chip8Rom: seq<u8>
    ghost var emitted: seq<Item>
    /** The calls of `generate_init` and of `generate_runtime`, taken from
        the Routines the compiler is created with (InitItems and
        RuntimeItems); contracts name them through these fields. */
    const init: seq<Item>
    const runtime: seq<Item>

    /** pc is the buffer length as a u16 (it wraps past 64 KiB), and every
        fixup lies inside the buffer; before the wrap the fixups are
        ascending. */
    ghost predicate Valid()
      reads this
    {
      && pc == Wrap16(|code|)
      && InBounds(forwardRefs, |code|)
      && (|code| <= 0x10000 ==> Ascending(forwardRefs))
    }

    /** Until `resolve_refs` patches it, the buffer is what the calls in the
        history append, and the labels and fixups are what they define and
        record. */
    ghost predicate Tracked()
      reads this
    {
      Buffer(code, labels, forwardRefs) == Replay(emitted)
    }

    /** Since the call began, exactly the buffer calls `items` were
        performed: their bytes appended, their labels defined at their
        offsets and their fixups recorded. */
    twostate predicate Appended(items: seq<Item>)
      reads this
    {
      && emitted == old(emitted) + items
      && code == old(code) + Bytes(items)
      && labels == Defs(old(labels), |old(code)|, items)
      && forwardRefs == old(forwardRefs) + Refs(|old(code)|, items)
    }

    /** `Compiler::new` */
    constructor (routines: Routines)
      ensures Valid() && Tracked()
      ensures code == [] && pc == 0 && labels == map[] && forwardRefs == [] && chip8Labels == map[] && chip8Rom == []
      ensures emitted == []
      ensures init == routines.init && runtime == routines.runtime
    {
      init := routines.init;
      runtime := routines.runtime;
      code := [];
      pc := 0;
      labels := map[];
      forwardRefs := [];
      chip8Labels := map[];
      chip8Rom := [];
      emitted := [];
    }

    /** `emit`: append one byte. */
    method Emit(b: u8)
      requires Valid() && Tracked()
      modifies this
      ensures chip8Labels == old(chip8Labels) && chip8Rom == old(chip8Rom)
      ensures Valid() && Tracked()
      ensures code == old(code) + [b] && pc == Wrap16(old(pc) + 1)
      ensures labels == old(labels) && forwardRefs == old(forwardRefs)
      ensures emitted == old(emitted) + [Byte(b)]
    {
      Wrap16Add(|code|, 1);
      ReplayStep(emitted, Byte(b));
      code := code + [b];
      pc := Wrap16(pc + 1);
      emitted := emitted + [Byte(b)];
    }

    /** `emit16`: append the low byte, then the high byte. */
    method Emit16(w: u16)
      requires Valid() && Tracked()
      modifies this
      ensures chip8Labels == old(chip8Labels) && chip8Rom == old(chip8Rom)
      ensures Valid() && Tracked()
      ensures code == old(code) + [Lo(w), Hi(w)] && pc == Wrap16(old(pc) + 2)
      ensures labels == old(labels) && forwardRefs == old(forwardRefs)
      ensures emitted == old(emitted) + [Word(w)]
    {
      Emit(Lo(w));
      Emit(Hi(w));
      Wrap16Add(old(pc) + 1, 1);
      ReplayStep(old(emitted), Word(w));
      emitted := old(emitted) + [Word(w)];
    }

    /** `label`: the name now stands for the current pc; a name already
        defined is redefined. */
    method Label(name: string)
      requires Valid() && Tracked()
      modifies this
      ensures chip8Labels == old(chip8Labels) && chip8Rom == old(chip8Rom)
      ensures Valid() && Tracked()
      ensures labels == old(labels)[name := pc]
      ensures code == old(code) && pc == old(pc) && forwardRefs == old(forwardRefs)
      ensures emitted == old(emitted) + [Mark(name)]
    {
      ReplayStep(emitted, Mark(name));
      labels := labels[name := pc];
      emitted := emitted + [Mark(name)];
    }

    /** `emit_label_ref`: record a fixup at pc and append a two-byte
        placeholder. */
    method EmitLabelRef(name: string)
      requires Valid() && Tracked()
      modifies this
      ensures chip8Labels == old(chip8Labels) && chip8Rom == old(chip8Rom)
      ensures Valid() && Tracked()
      ensures forwardRefs == old(forwardRefs) + [(old(pc), name)]
      ensures code == old(code) + [0, 0] && pc == Wrap16(old(pc) + 2)
      ensures labels == old(labels)
      ensures emitted == old(emitted) + [Ref(name)]
    {
      var at := pc;
      Emit16(0);
      forwardRefs := forwardRefs + [(at, name)];
      ReplayStep(old(emitted), Ref(name));
      emitted := old(emitted) + [Ref(name)];
    }

    /** Performs one buffer call. */
    method Perform(it: Item)
      requires Valid() && Tracked()
      modifies this
      ensures chip8Labels == old(chip8Labels) && chip8Rom == old(chip8Rom)
      ensures Valid() && Tracked()
      ensures emitted == old(emitted) + [it]
    {
      match it
      case Byte(b) => Emit(b);
      case Word(w) => Emit16(w);
      case Ref(name) => EmitLabelRef(name);
      case Mark(name) => Label(name);
    }

    /** Performs a list of buffer calls in order. */
    method Assemble(items: seq<Item>)
      requires Valid() && Tracked()
      modifies this
      ensures chip8Labels == old(chip8Labels) && chip8Rom == old(chip8Rom)
      ensures Valid() && Tracked() && Appended(items)
      ensures old(code) <= code
    {
      var i := 0;
      while i < |items|
        invariant chip8Labels == old(chip8Labels) && chip8Rom == old(chip8Rom)
        invariant 0 <= i <= |items| && Valid() && Tracked()
        invariant emitted == old(emitted) + items[..i]
      {
        assert items[..i + 1] == items[..i] + [items[i]];
        Perform(items[i]);
        i := i + 1;
      }
      assert items[..|items|] == items;
      ReplayAppend(old(emitted), items);
    }

    /** `generate_header`: `JP 0x0100` at address 0, then zeros up to
        CODE_START. */
    method GenerateHeader()
      requires Valid() && Tracked() && code == []
      modifies this
      ensures chip8Labels == old(chip8Labels) && chip8Rom == old(chip8Rom)
      ensures Valid() && Tracked() && code == HEADER
      ensures emitted == old(emitted) + HeaderItems()
    {
      Emit(0xC3);
      Emit16(CODE_START);
      ghost var jump := old(emitted) + [Byte(0xC3)] + [Word(CODE_START)];
      assert Ops(Zeros(0)) == [];
      while pc < CODE_START
        invariant chip8Labels == old(chip8Labels) && chip8Rom == old(chip8Rom)
        invariant Valid() && Tracked() && 3 <= |code| <= 0x100
        invariant code == HEADER[..|code|]
        invariant emitted == jump + Ops(Zeros(|code| - 3))
        decreases 0x100 - |code|
      {
        HeaderStep(jump, |code|);
        Emit(0x00);
      }
      HeaderDone(old(emitted));
    }

    /** `generate_init`: the start-up code, from label `init` to the jump to
        `main` (the calls of InitItems). */
    method GenerateInit()
      requires Valid() && Tracked()
      modifies this
      ensures chip8Labels == old(chip8Labels) && chip8Rom == old(chip8Rom)
      ensures Valid() && Tracked()
      ensures emitted == old(emitted) + init
      ensures old(code) <= code
    {
      Assemble(init);
    }

    /** `generate_runtime`: the shared routines, `acia_init` to
        `refresh_display`. */
    method GenerateRuntime()
      requires Valid() && Tracked()
      modifies this
      ensures chip8Labels == old(chip8Labels) && chip8Rom == old(chip8Rom)
      ensures Valid() && Tracked()
      ensures emitted == old(emitted) + runtime
      ensures old(code) <= code
    {
      Assemble(runtime);
    }

    /** `resolve_refs`: patch every fixup, in order, with the position of its
        label, or fail on the first that names an undefined label. */
    method ResolveRefs() returns (r: Result<()>)
      requires Valid()
      modifies this
      ensures chip8Labels == old(chip8Labels) && chip8Rom == old(chip8Rom)
      ensures emitted == old(emitted) && labels == old(labels) && forwardRefs == old(forwardRefs) && pc == old(pc)
      ensures Valid() && |code| == |old(code)|
      ensures r.Ok? <==> Resolvable(forwardRefs, labels)
      ensures r.Ok? ==> code == Patched(old(code), forwardRefs, labels)
      ensures r.Err? ==> r.msg == "Undefined label: " + FirstUndefined(forwardRefs, labels)
    {
      var i := 0;
      while i < |forwardRefs|
        invariant chip8Labels == old(chip8Labels) && chip8Rom == old(chip8Rom)
        invariant emitted == old(emitted) && labels == old(labels) && forwardRefs == old(forwardRefs) && pc == old(pc)
        invariant 0 <= i <= |forwardRefs|
        invariant Resolvable(forwardRefs[..i], labels) && InBounds(forwardRefs[..i], |old(code)|)
        invariant code == Patched(old(code), forwardRefs[..i], labels)
      {
        var (addr, name) := forwardRefs[i];
        if name !in labels {
          FirstUndefinedAt(forwardRefs, labels, i);
          return Err("Undefined label: " + name);
        }
        var target := labels[name];
        assert forwardRefs[..i + 1][..i] == forwardRefs[..i];
        code := code[addr := Lo(target)];
        code := code[addr + 1 := Hi(target)];
        i := i + 1;
      }
      assert forwardRefs[..|forwardRefs|] == forwardRefs;
      r := Ok(());
    }

    /** `compile` (src/codegen.rs:55-113) with an empty buffer and CHIP-8
        label table: the emitted calls, the buffer they give with every
        fixup patched, and the 32 KiB image cut or padded from it. */
    method Compile(rom: seq<u8>) returns (r: Result<seq<u8>>)
      requires Valid() && Tracked() && code == [] && chip8Labels == map[]
      requires |rom| <= 0xFE00
      modifies this
      ensures Valid() && chip8Rom == rom && LabelsForParsed(chip8Labels, |Parsed(rom)|)
      ensures !TargetsKnown(Parsed(rom), chip8Labels) ==> r.Err? && StopsAt(Parsed(rom), chip8Labels, r.msg)
      ensures r.Ok? ==>
        var pre := old(emitted) + HeaderItems() + init + runtime + MainItems(|Parsed(rom)| > 0);
        && emitted == pre + ProgramItems(Parsed(rom), chip8Labels) + HaltItems() + Ops(rom)
        && labels == Defs(map[], 0, emitted) && forwardRefs == Refs(0, emitted)
        && Resolvable(forwardRefs, labels) && |code| == |Bytes(emitted)|
        && code == Patched(Bytes(emitted), forwardRefs, labels)
        && forall k :: 0 <= k < |Parsed(rom)| ==> Labelled(labels, pre, Parsed(rom), chip8Labels, k)
      ensures TargetsKnown(Parsed(rom), chip8Labels) && r.Err? ==>
        !Resolvable(forwardRefs, labels) && r.msg == "Undefined label: " + FirstUndefined(forwardRefs, labels)
      ensures r.Ok? ==> |r.value| == 0x8000
      ensures r.Ok? ==> forall i :: 0 <= i < 0x8000 ==> r.value[i] == if i < |code| then code[i] else 0
      ensures r.Ok? && |code| <= 0x10000 ==>
        HEADER <= code && 0x100 + |rom| <= |code| && code[|code| - |rom|..] == rom
    {
      ghost var e := emitted;
      ReplayEffect(e);
      var ok := EmitProgram(rom);
      if ok.Err? {
        return Err(ok.msg);
      }
      ReplayEffect(emitted);
      ghost var body := init + runtime + MainItems(|Parsed(rom)| > 0) + ProgramItems(Parsed(rom), chip8Labels) + HaltItems();
      Nest(e, HeaderItems(), init, runtime, MainItems(|Parsed(rom)| > 0), ProgramItems(Parsed(rom), chip8Labels), HaltItems(), Ops(rom));
      r := Link(e, body);
    }

    /** The end of `compile`: `resolve_refs`, then the 32 KiB image, for a
        buffer emitted from empty as the header, a body and the ROM copy. */
    method Link(ghost e: seq<Item>, ghost body: seq<Item>) returns (r: Result<seq<u8>>)
      requires Valid() && Tracked()
      requires Bytes(e) == [] && emitted == e + HeaderItems() + body + Ops(chip8Rom)
      modifies this
      ensures chip8Labels == old(chip8Labels) && chip8Rom == old(chip8Rom)
      ensures emitted == old(emitted) && labels == old(labels) && forwardRefs == old(forwardRefs)
      ensures Valid() && |code| == |old(code)|
      ensures r.Ok? <==> Resolvable(forwardRefs, labels)
      ensures r.Err? ==> r.msg == "Undefined label: " + FirstUndefined(forwardRefs, labels)
      ensures r.Ok? ==> code == Patched(old(code), forwardRefs, labels)
      ensures r.Ok? ==> |r.value| == 0x8000
      ensures r.Ok? ==> forall i :: 0 <= i < 0x8000 ==> r.value[i] == if i < |code| then code[i] else 0
      ensures r.Ok? && |code| <= 0x10000 ==>
        HEADER <= code && 0x100 + |chip8Rom| <= |code| && code[|code| - |chip8Rom|..] == chip8Rom
    {
      ReplayEffect(emitted);
      ghost var unpatched := code;
      var resolved := ResolveRefs();
      if resolved.Err? {
        return Err(resolved.msg);
      }
      var image := RomImage();
      r := Ok(image);
      if |code| <= 0x10000 {
        ImageLayout(e, body, chip8Rom, forwardRefs, labels, unpatched, code);
      }
    }

    /** `compile` up to `resolve_refs`: parse, label every instruction,
        emit the header, runtime, instructions, halt loop and ROM copy, or
        stop at the first jump or call to an unknown address. */
    method EmitProgram(rom: seq<u8>) returns (r: Result<()>)
      requires Valid() && Tracked() && code == [] && chip8Labels == map[]
      requires |rom| <= 0xFE00
      modifies this
      ensures Valid() && Tracked() && chip8Rom == rom && LabelsForParsed(chip8Labels, |Parsed(rom)|)
      ensures r.Ok? <==> TargetsKnown(Parsed(rom), chip8Labels)
      ensures r.Err? ==> StopsAt(Parsed(rom), chip8Labels, r.msg)
      ensures r.Ok? ==>
        var pre := old(emitted) + HeaderItems() + init + runtime + MainItems(|Parsed(rom)| > 0);
        && emitted == pre + ProgramItems(Parsed(rom), chip8Labels) + HaltItems() + Ops(rom)
        && forall k :: 0 <= k < |Parsed(rom)| ==>
             Labelled(labels, pre, Parsed(rom), chip8Labels, k) && CodeAt(code, pre, Parsed(rom), chip8Labels, k)
    {
      chip8Rom := rom;
      var insts := Parse(rom);
      LabelParsed(insts);
      r := EmitCode(insts);
      if r.Ok? {
        ghost var pre := old(emitted) + HeaderItems() + init + runtime + MainItems(|insts| > 0);
        ghost var program := ProgramItems(insts, chip8Labels);
        Regroup(pre + program, HaltItems(), Ops(rom));
        PostNoC8(rom);
        ReplayEffect(emitted);
        ProgramLayout(pre, insts, chip8Labels, HaltItems() + Ops(rom), labels, code);
      }
    }

    /** The emitting part of `compile` for the parsed instructions, their
        labels already in `chip8Labels`. */
    method EmitCode(insts: seq<Instruction>) returns (r: Result<()>)
      requires Valid() && Tracked() && code == []
      modifies this
      ensures chip8Labels == old(chip8Labels) && chip8Rom == old(chip8Rom)
      ensures Valid() && Tracked()
      ensures r.Ok? <==> TargetsKnown(insts, chip8Labels)
      ensures r.Err? ==> StopsAt(insts, chip8Labels, r.msg)
      ensures r.Ok? ==>
        emitted == old(emitted) + HeaderItems() + init + runtime + MainItems(|insts| > 0)
                   + ProgramItems(insts, chip8Labels) + HaltItems() + Ops(chip8Rom)
    {
      EmitPrologue(|insts| > 0);
      r := CompileInstructions(insts);
      if r.Err? {
        return;
      }
      EmitEpilogue();
    }

    /** What `compile` emits before the instructions: the header, the
        start-up code, the runtime routines, and at label `main` a jump to
        the first instruction, or to `halt` when the ROM has none. */
    method EmitPrologue(nonEmpty: bool)
      requires Valid() && Tracked() && code == []
      modifies this
      ensures chip8Labels == old(chip8Labels) && chip8Rom == old(chip8Rom)
      ensures Valid() && Tracked()
      ensures emitted == old(emitted) + HeaderItems() + init + runtime + MainItems(nonEmpty)
      ensures |code| >= 0x103 && code[..0x100] == HEADER && code[|code| - 3..] == JUMP
      ensures "main" in labels && labels["main"] == Wrap16(|code| - 3)
      ensures |forwardRefs| > 0 && forwardRefs[|forwardRefs| - 1] == (Wrap16(|code| - 2), if nonEmpty then C8Label(LOAD_ADDR) else "halt")
    {
      GenerateHeader();
      ghost var header := code;
      GenerateInit();
      ghost var init := code;
      GenerateRuntime();
      ghost var before, history, at := code, emitted, pc;
      var target := if nonEmpty then C8Label(LOAD_ADDR) else "halt";
      Label("main");
      Emit(0xC3);
      ghost var refAt := pc;
      EmitLabelRef(target);
      MainCalls(history, nonEmpty);
      PrologueCode(header, init, before, code, at, refAt);
    }

    /** What `compile` emits after the instructions: the `halt` loop, then
        at label `chip8_rom_data` the ROM bytes themselves. */
    method EmitEpilogue()
      requires Valid() && Tracked()
      modifies this
      ensures chip8Labels == old(chip8Labels) && chip8Rom == old(chip8Rom)
      ensures Valid() && Tracked()
      ensures emitted == old(emitted) + HaltItems() + Ops(chip8Rom)
      ensures code == old(code) + HALT_LOOP + chip8Rom
      ensures labels == old(labels)["halt" := Wrap16(|old(code)|)]["chip8_rom_data" := Wrap16(|old(code)| + 4)]
      ensures forwardRefs == old(forwardRefs) + [(Wrap16(|old(code)| + 2), "halt")]
    {
      Assemble(HaltItems());
      HaltEffect(old(labels), |old(code)|);
      EmbedRom();
    }

    /** The first pass of `compile`: a `c8_` label for every parsed
        instruction's address. */
    method LabelParsed(insts: seq<Instruction>)
      requires forall k :: 0 <= k < |insts| ==> insts[k].addr == LOAD_ADDR + 2 * k
      requires chip8Labels == map[]
      modifies this`chip8Labels
      ensures LabelsForParsed(chip8Labels, |insts|)
    {
      var k := 0;
      while k < |insts|
        invariant 0 <= k <= |insts|
        invariant LabelsForParsed(chip8Labels, k)
      {
        LabelsForParsedStep(chip8Labels, k, insts[k].addr);
        chip8Labels := chip8Labels[insts[k].addr := C8Label(insts[k].addr)];
        k := k + 1;
      }
    }

    /** `compile_instruction`: the code for one instruction, or the error
        for a jump or call to an address no parsed instruction has; a CALL
        has already emitted its return-address push when it finds out. */
    method CompileInstruction(inst: Instruction) returns (r: Result<()>)
      requires Valid() && Tracked()
      modifies this
      ensures chip8Labels == old(chip8Labels) && chip8Rom == old(chip8Rom)
      ensures Valid() && Tracked() && Appended(Emitted(inst, chip8Labels))
      ensures r.Err? <==> BadTarget(inst, chip8Labels)
      ensures r.Err? ==>
        && r.msg == TargetError(inst)
        && labels == old(labels) && forwardRefs == old(forwardRefs)
        && code == old(code) + if Classify(inst).Call? then Bytes(CallItems(Wrap16(inst.addr + 2))) else []
    {
      var t := Translate(inst, chip8Labels);
      Assemble(Emitted(inst, chip8Labels));
      if t.Err? {
        EmittedOnError(inst, chip8Labels, old(labels), |old(code)|);
        return Err(t.msg);
      }
      r := Ok(());
    }

    /** The second loop of `compile`: each instruction's label, then its
        code, stopping at the first jump or call to an unknown address. */
    method CompileInstructions(insts: seq<Instruction>) returns (r: Result<()>)
      requires Valid() && Tracked()
      modifies this
      ensures chip8Labels == old(chip8Labels) && chip8Rom == old(chip8Rom)
      ensures Valid() && Tracked()
      ensures r.Ok? <==> TargetsKnown(insts, chip8Labels)
      ensures r.Ok? ==> emitted == old(emitted) + ProgramItems(insts, chip8Labels)
      ensures r.Err? ==> exists k :: 0 <= k < |insts| && TargetsKnown(insts[..k], chip8Labels)
                               && BadTarget(insts[k], chip8Labels) && r.msg == TargetError(insts[k])
                               && emitted == old(emitted) + ProgramItems(insts[..k + 1], chip8Labels)
    {
      ghost var table := chip8Labels;
      var k := 0;
      while k < |insts|
        invariant chip8Labels == old(chip8Labels) && chip8Rom == old(chip8Rom)
        invariant 0 <= k <= |insts| && Valid() && Tracked() && chip8Labels == table
        invariant TargetsKnown(insts[..k], table)
        invariant emitted == old(emitted) + ProgramItems(insts[..k], table)
      {
        Label(C8Label(insts[k].addr));
        var one := CompileInstruction(insts[k]);
        ProgramStep(old(emitted), insts, table, k);
        if one.Err? {
          TargetsKnownAll(insts, table);
          assert 0 <= k < |insts| && TargetsKnown(insts[..k], table) && BadTarget(insts[k], table)
                 && one.msg == TargetError(insts[k]) && emitted == old(emitted) + ProgramItems(insts[..k + 1], table);
          return one;
        }
        KnownStep(insts, table, k);
        k := k + 1;
      }
      assert insts[..k] == insts;
      r := Ok(());
    }

    /** The tail of `compile`: the ROM bytes, verbatim. */
    method EmbedRom()
      requires Valid() && Tracked()
      modifies this
      ensures chip8Labels == old(chip8Labels) && chip8Rom == old(chip8Rom)
      ensures Valid() && Tracked()
      ensures code == old(code) + chip8Rom && emitted == old(emitted) + Ops(chip8Rom)
      ensures labels == old(labels) && forwardRefs == old(forwardRefs)
    {
      var k := 0;
      while k < |chip8Rom|
        invariant chip8Labels == old(chip8Labels) && chip8Rom == old(chip8Rom)
        invariant 0 <= k <= |chip8Rom| && Valid() && Tracked()
        invariant code == old(code) + chip8Rom[..k] && labels == old(labels) && forwardRefs == old(forwardRefs)
        invariant emitted == old(emitted) + Ops(chip8Rom[..k])
      {
        assert Ops(chip8Rom[..k + 1]) == Ops(chip8Rom[..k]) + [Byte(chip8Rom[k])];
        Emit(chip8Rom[k]);
        k := k + 1;
      }
      assert chip8Rom[..k] == chip8Rom;
    }

    /** The 32 KiB image `compile` returns: the buffer cut to 32768 bytes,
        or padded with zeros up to it. */
    method RomImage() returns (image: seq<u8>)
      ensures |image| == 0x8000
      ensures forall i :: 0 <= i < 0x8000 ==> image[i] == if i < |code| then code[i] else 0
    {
      var a := new u8[0x8000](_ => 0);
      var k := 0;
      while k < |code|
        invariant 0 <= k <= |code|
        invariant forall i :: 0 <= i < 0x8000 ==> a[i] == if i < k && i < |code| then code[i] else 0
      {
        if k < a.Length {
          a[k] := code[k];
        }
        k := k + 1;
      }
      image := a[..];
    }
  }
}
