/** Sixteen-bit registers and the values stored in them, most significant word first. */
module RegisterMemory {
  import opened MachineInts

  type Memory = seq<u16>

  const ADDRESSES: int := 0x1_0000

  function WordCount(t: IntType): (n: nat) {
    match t
    case U16 => 1
    case I16 => 1
    case U32 => 2
    case I32 => 2
  }

  /** Negative values are stored in two's complement. */
  function Encode(t: IntType, v: int): (words: seq<u16>)
    requires t.Holds(v)
    ensures |words| == WordCount(t)
  {
    match t
    case U16 => [v]
    case I16 => [v % 0x1_0000]
    case U32 => [v / 0x1_0000, v % 0x1_0000]
    case I32 => var u := v % 0x1_0000_0000; [u / 0x1_0000, u % 0x1_0000]
  }

  function Decode(t: IntType, words: seq<u16>): (v: int)
    requires |words| == WordCount(t)
    ensures t.Holds(v)
  {
    var high: int := words[0];
    match t
    case U16 => high
    case I16 => if high < 0x8000 then high else high - 0x1_0000
    case U32 => high * 0x1_0000 + words[1]
    case I32 =>
      var u := high * 0x1_0000 + words[1];
      if u < 0x8000_0000 then u else u - 0x1_0000_0000
  }

  lemma DecodeEncode(t: IntType, v: int)
    requires t.Holds(v)
    ensures Decode(t, Encode(t, v)) == v
  {
  }

  /** As an unsigned number, most significant word first, the words are the value modulo their range. */
  lemma EncodedBigEndian(t: IntType, v: int)
    requires t.Holds(v)
    ensures var words := Encode(t, v);
            var high: int := words[0];
            && |words| == (if t == U16 || t == I16 then 1 else 2)
            && (|words| == 1 ==> high == if v < 0 then v + 0x1_0000 else v)
            && (|words| == 2 ==> high * 0x1_0000 + words[1] == if v < 0 then v + 0x1_0000_0000 else v)
  {
    assert t.I32? && v < 0 ==> v % 0x1_0000_0000 == v + 0x1_0000_0000;
  }

  function Get(mem: Memory, addr: nat, n: nat): (words: seq<u16>)
    requires addr + n <= |mem|
    ensures |words| == n
  {
    mem[addr..addr + n]
  }

  function Put(mem: Memory, addr: nat, words: seq<u16>): (after: Memory)
    requires addr + |words| <= |mem|
    ensures |after| == |mem|
    ensures Get(after, addr, |words|) == words
    ensures forall i :: 0 <= i < |mem| && !(addr <= i < addr + |words|) ==> after[i] == mem[i]
  {
    mem[..addr] + words + mem[addr + |words|..]
  }

  /** Two memories that agree on a stretch read the same there. */
  lemma SameStretch(a: Memory, b: Memory, addr: nat, n: nat)
    requires addr + n <= |a| == |b|
    requires forall i :: addr <= i < addr + n ==> a[i] == b[i]
    ensures Get(a, addr, n) == Get(b, addr, n)
  {
    assert forall i :: 0 <= i < n ==> Get(a, addr, n)[i] == Get(b, addr, n)[i];
  }

  /** Writes words into consecutive registers, one at a time. */
  method WriteWords(regs: array<u16>, addr: nat, words: seq<u16>)
    requires addr + |words| <= regs.Length
    modifies regs
    ensures regs[..] == Put(old(regs[..]), addr, words)
  {
    for i := 0 to |words|
      invariant forall k :: 0 <= k < regs.Length ==> regs[k] == if addr <= k < addr + i then words[k - addr]
                                                                else old(regs[k])
    {
      regs[addr + i] := words[i];
    }
    assert forall k :: 0 <= k < regs.Length ==> regs[..][k] == Put(old(regs[..]), addr, words)[k];
  }
}
