/** Machine-width integers, the error type and hexadecimal formatting shared
    by the decoder and the code generator. */
module Types {

  /** Rust `u8`. */
  type u8 = x: int | 0 <= x < 0x100

  /** Rust `u16`. */
  type u16 = x: int | 0 <= x < 0x10000

  /** `Result<T, String>` as the compiler returns it. */
  datatype Result<T> = Ok(value: T) | Err(msg: string)

  /** `(w & 0xFF) as u8` */
  function Lo(w: u16): (r: u8)
    ensures r < 0x100 && (w - r) % 0x100 == 0
  {
    w % 0x100
  }

  /** `(w >> 8) as u8` */
  function Hi(w: u16): (r: u8)
    ensures r * 0x100 + Lo(w) == w
  {
    w / 0x100
  }

  /** A 16-bit sum as a register pair holds it: Rust's wrapping `u16`
      addition, by repeatedly dropping 2^16. */
  function Wrap16(x: nat): (r: u16)
    ensures r <= x
    ensures x < 0x10000 ==> r == x
    decreases x
  {
    if x < 0x10000 then x else Wrap16(x - 0x10000)
  }

  /** The wrap is the remainder modulo 2^16. */
  lemma {:induction false} Wrap16IsMod(x: nat)
    ensures Wrap16(x) == x % 0x10000
    decreases x
  {
    if x >= 0x10000 {
      Wrap16IsMod(x - 0x10000);
    }
  }

  /** Adding to a wrapped value and wrapping again is wrapping the plain
      sum: a 16-bit counter advanced step by step stays the total modulo
      2^16. */
  lemma {:induction false} Wrap16Add(x: nat, d: nat)
    ensures Wrap16(Wrap16(x) + d) == Wrap16(x + d)
    decreases x
  {
    if x >= 0x10000 {
      Wrap16Add(x - 0x10000, d);
    }
  }

  /** One upper-case hexadecimal digit. */
  function HexDigit(d: nat): (c: char)
    requires d < 16
    ensures ('0' <= c <= '9') || ('A' <= c <= 'F')
  {
    if d < 10 then '0' + d as char else 'A' + (d - 10) as char
  }

  /** The value of a digit produced by HexDigit. */
  function DigitValue(c: char): nat
  {
    if '0' <= c <= '9' then (c - '0') as nat
    else if 'A' <= c <= 'F' then (c - 'A') as nat + 10
    else 0
  }

  /** Rust's `format!("{:0wX}", v)`: upper-case hexadecimal, zero-padded to at
      least `width` digits. */
  function Hex(v: nat, width: nat): (s: string)
    ensures |s| >= 1 && |s| >= width
    decreases v, width
  {
    if v < 16 && width <= 1 then [HexDigit(v)]
    else Hex(v / 16, if width > 0 then width - 1 else 0) + [HexDigit(v % 16)]
  }

  /** Reads back a string of hexadecimal digits. */
  function HexValue(s: string): nat
  {
    if s == [] then 0 else HexValue(s[..|s| - 1]) * 16 + DigitValue(s[|s| - 1])
  }

  /** Formatting and reading back are inverse: the text of a label such as
      `c8_2A4` names exactly one address. */
  lemma {:induction false} HexRoundTrip(v: nat, width: nat)
    ensures HexValue(Hex(v, width)) == v
    decreases v, width
  {
    if v < 16 && width <= 1 {
      assert Hex(v, width) == [HexDigit(v)];
      assert [HexDigit(v)][..0] == [];
    } else {
      var w' := if width > 0 then width - 1 else 0;
      HexRoundTrip(v / 16, w');
      var s := Hex(v, width);
      assert s[..|s| - 1] == Hex(v / 16, w');
    }
  }

  /** Different values give different texts, whatever the widths. */
  lemma HexInjective(v: nat, w: nat, v': nat, w': nat)
    requires Hex(v, w) == Hex(v', w')
    ensures v == v'
  {
    HexRoundTrip(v, w);
    HexRoundTrip(v', w');
  }
}
