/** What the code generator appends to its buffer, item by item, and the Z80
    instruction encodings its helper methods emit (src/codegen.rs:1016-1154). */
module Z80 {
  import opened Types

  /** One call into the buffer primitives: `emit`, `emit16`,
      `emit_label_ref` or `label`. */
  datatype Item =
    | Byte(b: u8)        // emit(b)
    | Word(w: u16)       // emit16(w)
    | Ref(name: string)  // emit_label_ref(name)
    | Mark(name: string) // label(name)

  /** The bytes one item appends: a word little-endian, a label reference as
      a two-byte placeholder, a label nothing. */
  function ItemBytes(it: Item): (s: seq<u8>)
    ensures |s| == match it case Byte(_) => 1 case Mark(_) => 0 case _ => 2
  {
    match it
    case Byte(b) => [b]
    case Word(w) => [Lo(w), Hi(w)]
    case Ref(_) => [0, 0]
    case Mark(_) => []
  }

  /** The bytes a list of items appends, in order. */
  function Bytes(items: seq<Item>): seq<u8>
  {
    if items == [] then [] else ItemBytes(items[0]) + Bytes(items[1..])
  }

  /** The `(pc, name)` entries a list of items adds to `forward_refs` when
      its first byte goes to buffer offset `start` (pc is the offset modulo
      2^16). */
  function Refs(start: nat, items: seq<Item>): seq<(u16, string)>
    decreases |items|
  {
    if items == [] then []
    else
      (if items[0].Ref? then [(Wrap16(start), items[0].name)] else [])
      + Refs(start + |ItemBytes(items[0])|, items[1..])
  }

  /** The label table after a list of items is emitted from offset `start`:
      each label maps to the pc at its position, and a name defined twice
      keeps its last position. */
  function Defs(labels: map<string, u16>, start: nat, items: seq<Item>): map<string, u16>
    decreases |items|
  {
    if items == [] then labels
    else
      var it := items[0];
      Defs(if it.Mark? then labels[it.name := Wrap16(start)] else labels, start + |ItemBytes(it)|, items[1..])
  }

  /** Emitting two lists one after the other appends their bytes in order. */
  lemma {:induction false} BytesAppend(a: seq<Item>, b: seq<Item>)
    ensures Bytes(a + b) == Bytes(a) + Bytes(b)
  {
    if a == [] {
      assert a + b == b;
    } else {
      assert (a + b)[1..] == a[1..] + b;
      BytesAppend(a[1..], b);
    }
  }

  /** The fixups of two lists emitted one after the other: the second list's
      start where the first one's bytes end. */
  lemma {:induction false} RefsAppend(start: nat, a: seq<Item>, b: seq<Item>)
    ensures Refs(start, a + b) == Refs(start, a) + Refs(start + |Bytes(a)|, b)
    decreases |a|
  {
    if a == [] {
      assert a + b == b;
    } else {
      assert (a + b)[1..] == a[1..] + b;
      RefsAppend(start + |ItemBytes(a[0])|, a[1..], b);
    }
  }

  /** The label table of two lists emitted one after the other. */
  lemma {:induction false} DefsAppend(labels: map<string, u16>, start: nat, a: seq<Item>, b: seq<Item>)
    ensures Defs(labels, start, a + b) == Defs(Defs(labels, start, a), start + |Bytes(a)|, b)
    decreases |a|
  {
    if a == [] {
      assert a + b == b;
    } else {
      assert (a + b)[1..] == a[1..] + b;
      var it := a[0];
      DefsAppend(if it.Mark? then labels[it.name := Wrap16(start)] else labels, start + |ItemBytes(it)|, a[1..], b);
    }
  }

  /** What one more item adds: its bytes, a fixup at its position if it is
      a reference, a definition at its position if it is a label. */
  lemma AppendOne(labels: map<string, u16>, start: nat, items: seq<Item>, it: Item)
    ensures Bytes(items + [it]) == Bytes(items) + ItemBytes(it)
    ensures Refs(start, items + [it])
         == Refs(start, items) + if it.Ref? then [(Wrap16(start + |Bytes(items)|), it.name)] else []
    ensures Defs(labels, start, items + [it])
         == var d := Defs(labels, start, items); if it.Mark? then d[it.name := Wrap16(start + |Bytes(items)|)] else d
  {
    BytesAppend(items, [it]);
    RefsAppend(start, items, [it]);
    DefsAppend(labels, start, items, [it]);
    assert [it][1..] == [];
  }

  /** The bytes and fixups of a two-item instruction such as `LD A,n` or
      `JP label`. */
  lemma PairItems(a: Item, b: Item, start: nat)
    ensures Bytes([a, b]) == ItemBytes(a) + ItemBytes(b)
    ensures Refs(start, [a, b])
         == (if a.Ref? then [(Wrap16(start), a.name)] else [])
          + (if b.Ref? then [(Wrap16(start + |ItemBytes(a)|), b.name)] else [])
  {
    assert [a, b][1..] == [b] && [b][1..] == [];
    assert Bytes([b]) == ItemBytes(b) + Bytes([]);
    assert Bytes([a, b]) == ItemBytes(a) + Bytes([b]);
    assert Refs(start + |ItemBytes(a)|, [b])
        == (if b.Ref? then [(Wrap16(start + |ItemBytes(a)|), b.name)] else [])
         + Refs(start + |ItemBytes(a)| + |ItemBytes(b)|, []);
  }

  /** Before pc wraps, every fixup of a list lies in the bytes the list
      itself appends. */
  lemma {:induction false} RefsWithin(start: nat, items: seq<Item>)
    requires start + |Bytes(items)| <= 0x10000
    ensures forall k :: 0 <= k < |Refs(start, items)| ==>
      start <= Refs(start, items)[k].0 && Refs(start, items)[k].0 as int + 2 <= start + |Bytes(items)|
    decreases |items|
  {
    if items != [] {
      var step := |ItemBytes(items[0])|;
      RefsWithin(start + step, items[1..]);
    }
  }

  /** Emitting `a` and then `b` from offset `start` appends, records and
      defines what emitting `a + b` does. */
  lemma AppendBoth(labels: map<string, u16>, start: nat, a: seq<Item>, b: seq<Item>)
    ensures Bytes(a + b) == Bytes(a) + Bytes(b)
    ensures Refs(start, a + b) == Refs(start, a) + Refs(start + |Bytes(a)|, b)
    ensures Defs(labels, start, a + b) == Defs(Defs(labels, start, a), start + |Bytes(a)|, b)
  {
    BytesAppend(a, b);
    RefsAppend(start, a, b);
    DefsAppend(labels, start, a, b);
  }

  /** No item of the list defines the label `name`. */
  predicate NoMark(items: seq<Item>, name: string)
  {
    Mark(name) !in items
  }

  /** Items that define no label `name` leave its entry in the table as it
      was, present or absent. */
  lemma {:induction false} DefsKeep(labels: map<string, u16>, start: nat, items: seq<Item>, name: string)
    requires NoMark(items, name)
    ensures name in Defs(labels, start, items) <==> name in labels
    ensures name in labels ==> Defs(labels, start, items)[name] == labels[name]
    decreases |items|
  {
    if items != [] {
      var it := items[0];
      assert items == [it] + items[1..];
      DefsKeep(if it.Mark? then labels[it.name := Wrap16(start)] else labels, start + |ItemBytes(it)|, items[1..], name);
    }
  }

  /** Items that emit only bytes and words, so that their bytes are known
      before any label is resolved. */
  predicate Plain(items: seq<Item>)
  {
    forall it :: it in items ==> it.Byte? || it.Word?
  }

  lemma PlainAppend(a: seq<Item>, b: seq<Item>)
    requires Plain(a) && Plain(b)
    ensures Plain(a + b)
  {
  }

  /** A list of items with no label reference records no fixup, and one with
      no label leaves the label table alone. */
  lemma {:induction false} PlainRecordsNothing(labels: map<string, u16>, start: nat, items: seq<Item>)
    requires Plain(items)
    ensures Refs(start, items) == [] && Defs(labels, start, items) == labels
    decreases |items|
  {
    if items != [] {
      PlainRecordsNothing(labels, start + |ItemBytes(items[0])|, items[1..]);
    }
  }

  // Opcodes of the single-byte helpers.
  const RET: u8 := 0xC9
  const RET_Z: u8 := 0xC8
  const LD_A_HL: u8 := 0x7E
  const LD_HL_A: u8 := 0x77
  const LD_A_DE: u8 := 0x1A
  const LD_DE_A: u8 := 0x12
  const LD_A_B: u8 := 0x78
  const LD_A_C: u8 := 0x79
  const LD_A_D: u8 := 0x7A
  const LD_A_E: u8 := 0x7B
  const LD_A_L: u8 := 0x7D
  const LD_A_H: u8 := 0x7C
  const LD_L_A: u8 := 0x6F
  const LD_E_A: u8 := 0x5F
  const LD_D_A: u8 := 0x57
  const LD_C_A: u8 := 0x4F
  const LD_E_HL: u8 := 0x5E
  const LD_D_HL: u8 := 0x56
  const LD_H_HL: u8 := 0x66
  const INC_HL: u8 := 0x23
  const INC_DE: u8 := 0x13
  const INC_B: u8 := 0x04
  const INC_HL_IND: u8 := 0x34
  const DEC_A: u8 := 0x3D
  const DEC_B: u8 := 0x05
  const DEC_D: u8 := 0x15
  const DEC_E: u8 := 0x1D
  const DEC_HL: u8 := 0x2B
  const DEC_BC: u8 := 0x0B
  const ADD_HL_DE: u8 := 0x19
  const ADD_HL_HL: u8 := 0x29
  const ADD_A_HL: u8 := 0x86
  const SUB_HL: u8 := 0x96
  const AND_A_E: u8 := 0xA3
  const AND_HL: u8 := 0xA6
  const OR_A: u8 := 0xB7
  const OR_C: u8 := 0xB1
  const OR_HL: u8 := 0xB6
  const XOR_A: u8 := 0xAF
  const XOR_H: u8 := 0xAC
  const XOR_HL: u8 := 0xAE
  const CP_HL: u8 := 0xBE
  const PUSH_AF: u8 := 0xF5
  const PUSH_HL: u8 := 0xE5
  const PUSH_DE: u8 := 0xD5
  const POP_AF: u8 := 0xF1
  const POP_HL: u8 := 0xE1
  const POP_DE: u8 := 0xD1
  const EX_DE_HL: u8 := 0xEB
  const HALT: u8 := 0x76

  /** `jp_label`; `jr_label` emits the same absolute jump. */
  function JpLabel(l: string): seq<Item> { [Byte(0xC3), Ref(l)] }
  /** `jp_z_label`; `jr_z` emits the same. */
  function JpZLabel(l: string): seq<Item> { [Byte(0xCA), Ref(l)] }
  /** `jp_nz_label`; `jr_nz` emits the same. */
  function JpNzLabel(l: string): seq<Item> { [Byte(0xC2), Ref(l)] }
  /** `jr_c`: an absolute JP C. */
  function JrC(l: string): seq<Item> { [Byte(0xDA), Ref(l)] }
  /** `jr_nc`: an absolute JP NC. */
  function JrNc(l: string): seq<Item> { [Byte(0xD2), Ref(l)] }
  function CallLabel(l: string): seq<Item> { [Byte(0xCD), Ref(l)] }
  function LdHlLabel(l: string): seq<Item> { [Byte(0x21), Ref(l)] }

  function LdHlNn(nn: u16): seq<Item> { [Byte(0x21), Word(nn)] }
  function LdDeNn(nn: u16): seq<Item> { [Byte(0x11), Word(nn)] }
  function LdBcNn(nn: u16): seq<Item> { [Byte(0x01), Word(nn)] }
  function LdAMem(addr: u16): seq<Item> { [Byte(0x3A), Word(addr)] }
  function LdMemA(addr: u16): seq<Item> { [Byte(0x32), Word(addr)] }

  function LdAN(n: u8): seq<Item> { [Byte(0x3E), Byte(n)] }
  function LdBN(n: u8): seq<Item> { [Byte(0x06), Byte(n)] }
  function LdDN(n: u8): seq<Item> { [Byte(0x16), Byte(n)] }
  function LdEN(n: u8): seq<Item> { [Byte(0x1E), Byte(n)] }
  function LdHN(n: u8): seq<Item> { [Byte(0x26), Byte(n)] }
  function AddAN(n: u8): seq<Item> { [Byte(0xC6), Byte(n)] }
  function SubN(n: u8): seq<Item> { [Byte(0xD6), Byte(n)] }
  function AndN(n: u8): seq<Item> { [Byte(0xE6), Byte(n)] }
  function CpN(n: u8): seq<Item> { [Byte(0xFE), Byte(n)] }
  function OutNA(port: u8): seq<Item> { [Byte(0xD3), Byte(port)] }
  function InAN(port: u8): seq<Item> { [Byte(0xDB), Byte(port)] }

  /** Single-byte instructions, in order. */
  function Ops(ops: seq<u8>): (items: seq<Item>)
    ensures Plain(items)
  {
    seq(|ops|, k requires 0 <= k < |ops| => Byte(ops[k]))
  }

  /** Single-byte instructions emit exactly their opcodes. */
  lemma {:induction false} BytesOfOps(ops: seq<u8>)
    ensures Bytes(Ops(ops)) == ops
    decreases |ops|
  {
    if ops != [] {
      assert Ops(ops)[1..] == Ops(ops[1..]);
      BytesOfOps(ops[1..]);
      assert [ops[0]] + ops[1..] == ops;
    }
  }
}
