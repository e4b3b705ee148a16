/** Bytes, 64-bit words and the byte-level effect of an 8-byte access on memory. */
module Words {

  const WORD: int := 0x1_0000_0000_0000_0000

  type Byte = b: int | 0 <= b < 256
  type U64 = w: int | 0 <= w < 0x1_0000_0000_0000_0000
  type Memory = map<int, Byte>

  datatype Option<+T> = None | Some(value: T)

  // What the tracer writes.
  const INT3: Byte := 0xCC

  // Unsigned 64-bit arithmetic: the result modulo 2^64.
  function Wrap(x: int): U64 {
    x % 0x1_0000_0000_0000_0000
  }

  // Byte i of w, counted from the least significant one (little endian).
  function ByteAt(w: nat, i: nat): Byte {
    if i == 0 then w % 256 else ByteAt(w / 256, i - 1)
  }

  // Replace the low byte of a word by INT3.
  function MakePatchedWord(w: U64): U64 {
    w / 256 * 256 + INT3
  }

  predicate InWindow(a: int, k: int) {
    a <= k < a + 8
  }

  // Text shadows data: an address belongs to data only where there is no text.
  predicate Mapped(text: Memory, data: Memory, k: int) {
    k in text || k in data
  }

  function View(text: Memory, data: Memory, k: int): Byte
    requires Mapped(text, data, k)
  {
    if k in text then text[k] else data[k]
  }

  function Power256(n: nat): nat {
    if n == 0 then 1 else 256 * Power256(n - 1)
  }

  // The n bytes from address a on, read as one little-endian number.
  function Load(text: Memory, data: Memory, a: int, n: nat): (w: nat)
    requires forall k :: a <= k < a + n ==> Mapped(text, data, k)
    ensures w < Power256(n)
    decreases n
  {
    if n == 0 then 0 else View(text, data, a) + 256 * Load(text, data, a + 1, n - 1)
  }

  lemma Power256Of8()
    ensures Power256(8) == WORD
  {
    assert Power256(4) == 0x1_0000_0000;
  }

  // PTRACE_PEEKDATA: fails unless all eight bytes are mapped.
  function PeekWord(text: Memory, data: Memory, a: int): Option<U64> {
    if forall k :: a <= k < a + 8 ==> Mapped(text, data, k) then
      Power256Of8();
      Some(Load(text, data, a, 8))
    else
      None
  }

  // The text after PTRACE_POKEDATA of w at a.
  function PokeText(text: Memory, a: int, w: U64): Memory {
    map k | k in text :: if InWindow(a, k) then ByteAt(w, k - a) else text[k]
  }

  // The data after PTRACE_POKEDATA of w at a.
  function PokeData(text: Memory, data: Memory, a: int, w: U64): Memory {
    map k | k in data :: if InWindow(a, k) && k !in text then ByteAt(w, k - a) else data[k]
  }

  // Text with the byte 0xCC at a, the breakpoint instruction of x86_64.
  function Planted(text: Memory, a: int): Memory {
    if a in text then text[a := 0xCC] else text
  }

  lemma PlantedOutside(text: Memory, a: int)
    requires a !in text
    ensures Planted(text, a) == text
  {
  }

  // w holds, for each text byte of the window at a, that byte's value.
  ghost predicate Saved(text: Memory, a: int, w: U64) {
    forall k {:trigger InWindow(a, k)} :: InWindow(a, k) && k in text ==> ByteAt(w, k - a) == text[k]
  }

  lemma {:induction false} LoadByte(text: Memory, data: Memory, a: int, n: nat, i: nat)
    requires forall k :: a <= k < a + n ==> Mapped(text, data, k)
    requires i < n
    ensures ByteAt(Load(text, data, a, n), i) == View(text, data, a + i)
    decreases n
  {
    if i > 0 {
      LoadByte(text, data, a + 1, n - 1, i - 1);
    }
  }

  lemma PatchedBytes(w: U64, i: nat)
    ensures ByteAt(MakePatchedWord(w), i) == if i == 0 then INT3 else ByteAt(w, i)
  {
  }

  // A word read from memory saves the text of its window.
  lemma PeekSaves(text: Memory, data: Memory, a: int)
    ensures PeekWord(text, data, a).Some? ==> Saved(text, a, PeekWord(text, data, a).value)
  {
    if PeekWord(text, data, a).Some? {
      forall k | InWindow(a, k) && k in text
        ensures ByteAt(PeekWord(text, data, a).value, k - a) == text[k]
      {
        LoadByte(text, data, a, 8, k - a);
      }
    }
  }

  // Reading a word and writing it back patched changes one byte of text only.
  lemma PatchPlants(text: Memory, data: Memory, a: int)
    requires PeekWord(text, data, a).Some?
    ensures PokeText(text, a, MakePatchedWord(PeekWord(text, data, a).value)) == Planted(text, a)
  {
    var w := PeekWord(text, data, a).value;
    PeekSaves(text, data, a);
    forall k | k in text
      ensures PokeText(text, a, MakePatchedWord(w))[k] == Planted(text, a)[k]
    {
      if InWindow(a, k) {
        PatchedBytes(w, k - a);
      }
    }
  }

  // Writing a saved word back over a text with one breakpoint anywhere removes the breakpoint
  // exactly when it lies in the window written.
  lemma PokeRestores(text: Memory, b: int, a: int, w: U64)
    requires Saved(text, a, w)
    ensures PokeText(Planted(text, b), a, w) == if InWindow(a, b) then text else Planted(text, b)
  {
  }

  lemma PokeKeepsSaved(text: Memory, a: int, w: U64)
    requires Saved(text, a, w)
    ensures PokeText(text, a, w) == text
  {
  }

  // Writes whose window is all text leave the data alone.
  lemma PokeSparesData(text: Memory, data: Memory, a: int, w: U64)
    requires forall k :: InWindow(a, k) ==> k in text
    ensures PokeData(text, data, a, w) == data
  {
  }
}
