/**
 _set_jmp and _long_jmp of 2018-fibers/src/jmp.S, instruction by instruction.  Memory is addressed by
 quadwords; all addresses used are multiples of 8.  The context (`exec_context_t` of jmp.h) has 18
 quadwords and the 512 bytes that fxsave writes.
 */
module Jump {
  import opened Arithmetic

  const TWO64 := 0x1_0000_0000_0000_0000

  type Memory = int -> int

  datatype Flags = Flags(sf: bool, zf: bool, af: bool, pf: bool, cf: bool, of: bool)

  datatype Machine = Machine(
    rax: int, rdx: int, rcx: int, rbx: int, rsp: int, rbp: int, rsi: int, rdi: int,
    r8: int, r9: int, r10: int, r11: int, r12: int, r13: int, r14: int, r15: int,
    rip: int, flags: Flags, fpu: seq<int>, mem: int -> int)

  const FPU_WORDS := 64
  const CONTEXT_SIZE := 656

  // ---------- instructions ----------

  function Wrap(x: int): int {
    x % TWO64
  }

  function Store(mem: int -> int, a: int, v: int): (r: int -> int)
    ensures forall b :: r(b) == if b == a then v else mem(b)
  {
    b => if b == a then v else mem(b)
  }

  function Write(m: Machine, a: int, v: int): Machine {
    m.(mem := Store(m.mem, a, v))
  }

  function Push(m: Machine, v: int): Machine {
    var sp := Wrap(m.rsp - 8);
    Write(m, sp, v).(rsp := sp)
  }

  function Ret(m: Machine): Machine {
    m.(rip := m.mem(m.rsp), rsp := Wrap(m.rsp + 8))
  }

  function Ones(b: nat): nat {
    if b == 0 then 0 else b % 2 + Ones(b / 2)
  }

  /** The status flags of an addition in a register of `size` values. */
  function AddFlags(a: int, b: int, size: int): Flags
    requires size > 0
  {
    var r := (a + b) % size;
    Flags(2 * r >= size, r == 0, a % 16 + b % 16 >= 16, Ones(r % 256) % 2 == 0, a + b >= size,
          (2 * a >= size) == (2 * b >= size) && (2 * a >= size) != (2 * r >= size))
  }

  /** A register of `size` values read as a signed number. */
  function Signed(a: int, size: int): int {
    if 2 * a >= size then a - size else a
  }

  /** OF tells a sum that is wrong when read as signed, CF one that is wrong when read as unsigned; SF is
      its sign, and ZF and AF are as usual. */
  lemma AddFlagsExact(a: int, b: int, size: int)
    requires 0 <= a < size && 0 <= b < size && size % 2 == 0
    ensures var f, r := AddFlags(a, b, size), (a + b) % size;
      && (f.of <==> Signed(r, size) != Signed(a, size) + Signed(b, size))
      && (f.cf <==> r != a + b)
      && (f.sf <==> Signed(r, size) < 0) && (f.zf <==> r == 0)
      && (f.af <==> (a % 16 + b % 16) % 16 != a % 16 + b % 16)
  {
    SumMod(a, b, size);
    NibbleCarry(a % 16, b % 16);
    hide Ones;
    var r, carry := (a + b) % size, a % 16 + b % 16;
  }

  lemma NibbleCarry(x: int, y: int)
    requires 0 <= x < 16 && 0 <= y < 16
    ensures x + y >= 16 <==> (x + y) % 16 != x + y
  {
  }

  lemma SumMod(a: int, b: int, size: int)
    requires 0 <= a < size && 0 <= b < size
    ensures (a + b) % size == if a + b < size then a + b else a + b - size
  {
    if a + b < size {
      UniqueMod(a + b, 0, a + b, size);
    } else {
      UniqueMod(a + b, 1, a + b - size, size);
    }
  }

  function Bit(b: bool): int {
    if b then 1 else 0
  }

  /** The byte of SF, ZF, AF, PF and CF. */
  function FlagByte(f: Flags): int {
    128 * Bit(f.sf) + 64 * Bit(f.zf) + 16 * Bit(f.af) + 4 * Bit(f.pf) + 2 + Bit(f.cf)
  }

  function Lahf(m: Machine): Machine {
    m.(rax := m.rax / 65536 * 65536 + FlagByte(m.flags) * 256 + m.rax % 256)
  }

  function SetoAl(m: Machine): Machine {
    m.(rax := m.rax / 256 * 256 + Bit(m.flags.of))
  }

  function AddbAl(m: Machine, imm: int): Machine {
    m.(rax := m.rax / 256 * 256 + (m.rax % 256 + imm) % 256, flags := AddFlags(m.rax % 256, imm, 256))
  }

  function Sahf(m: Machine): Machine {
    var ah := m.rax / 256 % 256;
    m.(flags := m.flags.(sf := ah / 128 % 2 == 1, zf := ah / 64 % 2 == 1, af := ah / 16 % 2 == 1,
                         pf := ah / 4 % 2 == 1, cf := ah % 2 == 1))
  }

  function AddqRsp(m: Machine, imm: int): Machine {
    m.(rsp := Wrap(m.rsp + imm), flags := AddFlags(m.rsp, imm, TWO64))
  }

  function AddqMem(m: Machine, imm: int, a: int): Machine {
    Write(m, a, Wrap(m.mem(a) + imm)).(flags := AddFlags(m.mem(a), imm, TWO64))
  }

  function XorqRax(m: Machine): Machine {
    m.(rax := 0, flags := Flags(false, true, m.flags.af, true, false, false))
  }

  function Fxsave(m: Machine, a: int): Machine
    requires |m.fpu| == FPU_WORDS
  {
    m.(mem := b => if a <= b < a + 512 && (b - a) % 8 == 0 then m.fpu[(b - a) / 8] else m.mem(b))
  }

  function Fxrstor(m: Machine, a: int): Machine {
    m.(fpu := seq(FPU_WORDS, k => m.mem(a + 8 * k)))
  }

  // ---------- the context ----------

  /** The machine on entry to _set_jmp: the return address on top of the stack, above it the rdi that
      the macro set_jmp pushed; the context apart from the stack that the function uses. */
  predicate Entry(m: Machine) {
    && |m.fpu| == FPU_WORDS
    && 24 <= m.rsp && m.rsp + 16 <= TWO64
    && m.rsp % 8 == 0 && m.rdi % 16 == 0
    && (m.rdi + CONTEXT_SIZE <= m.rsp - 24 || m.rsp + 16 <= m.rdi)
  }

  /** The first eight quadwords of a context at c for the machine m on entry to _set_jmp, the
      next four and six.  The saved rsp is one quadword above the return address's place. */
  predicate HoldsLow(mem: int -> int, c: int, m: Machine) {
    && mem(c) == m.rax && mem(c + 8) == m.rdx && mem(c + 16) == m.rcx && mem(c + 24) == m.rbx
    && mem(c + 32) == m.rsp - 8
    && mem(c + 40) == m.rbp && mem(c + 48) == m.rsi && mem(c + 56) == m.mem(m.rsp + 8)
  }

  predicate HoldsMiddle(mem: int -> int, c: int, m: Machine) {
    mem(c + 64) == m.r8 && mem(c + 72) == m.r9 && mem(c + 80) == m.r10 && mem(c + 88) == m.r11
  }

  predicate HoldsHigh(mem: int -> int, c: int, m: Machine) {
    && mem(c + 96) == m.r12 && mem(c + 104) == m.r13 && mem(c + 112) == m.r14 && mem(c + 120) == m.r15
    && mem(c + 128) == m.mem(m.rsp)
    && SavedFlags(mem(c + 136), m.flags)
  }

  /** The floating-point image. */
  predicate HoldsImage(mem: int -> int, a: int, fpu: seq<int>) {
    |fpu| == FPU_WORDS && forall k :: 0 <= k < FPU_WORDS ==> mem(a + 8 * k) == fpu[k]
  }

  /** The whole context. */
  predicate Holds(mem: int -> int, c: int, m: Machine) {
    HoldsLow(mem, c, m) && HoldsMiddle(mem, c, m) && HoldsHigh(mem, c, m) && HoldsImage(mem, c + 144, m.fpu)
  }

  /** Memory outside the context and the three slots below the stack pointer is as on entry. */
  ghost predicate Framed(m0: Machine, mem: int -> int) {
    forall a :: mem(a) == m0.mem(a) || m0.rsp - 24 <= a < m0.rsp || m0.rdi <= a < m0.rdi + 656
  }

  predicate SavedFlags(w: int, f: Flags) {
    w / 256 % 256 == FlagByte(f) && w % 256 == Bit(f.of)
  }

  /** Save the registers the function itself needs, and the status flags. */
  method SaveScratch(m0: Machine) returns (m: Machine)
    requires Entry(m0)
    ensures m == m0.(rax := m.rax, rsp := m.rsp, mem := m.mem) && Scratched(m0, m)
    ensures forall a :: m.mem(a) == m0.mem(a) || m0.rsp - 24 <= a < m0.rsp
  {
    hide Store, FlagByte, Wrap, SavedFlags;
    WrapSmall(m0.rsp - 8);
    WrapSmall(m0.rsp - 16);
    WrapSmall(m0.rsp - 24);
    m := m0;
    m := Push(m, m.rax);
    m := Push(m, m.r11);
    m := Lahf(m);
    m := SetoAl(m);
    FlagsInAx(m0.rax, m0.flags);
    m := Push(m, m.rax);
  }

  lemma FlagsInAx(rax: int, f: Flags)
    ensures var ax := rax / 65536 * 65536 + FlagByte(f) * 256 + rax % 256;
      SavedFlags(ax / 256 * 256 + Bit(f.of), f)
  {
    assert 0 <= FlagByte(f) < 256;
    hide FlagByte;
    Bytes(rax / 65536, FlagByte(f), rax % 256, Bit(f.of));
  }

  lemma Bytes(q: int, b: int, lo: int, o: int)
    requires 0 <= b < 256 && 0 <= lo < 256 && 0 <= o < 256
    ensures var w := (q * 65536 + b * 256 + lo) / 256 * 256 + o;
      w / 256 % 256 == b && w % 256 == o && w / 256 == q * 256 + b
  {
    var ax := q * 65536 + b * 256 + lo;
    assert ax / 256 == q * 256 + b;
  }

  lemma WrapSmall(x: int)
    requires 0 <= x < TWO64
    ensures Wrap(x) == x
  {
  }

  /** The stack in the middle of _set_jmp, for the machine m0 that entered it. */
  predicate Scratched(m0: Machine, m: Machine) {
    && m.rsp == m0.rsp - 24
    && SavedFlags(m.mem(m.rsp), m0.flags) && m.mem(m.rsp + 8) == m0.r11 && m.mem(m.rsp + 16) == m0.rax
    && m.mem(m0.rsp) == m0.mem(m0.rsp) && m.mem(m0.rsp + 8) == m0.mem(m0.rsp + 8)
  }

  method SaveLow(m0: Machine, m1: Machine) returns (m: Machine)
    requires Entry(m0) && Scratched(m0, m1) && m1 == m0.(rax := m1.rax, rsp := m1.rsp, mem := m1.mem)
    ensures HoldsLow(m.mem, m0.rdi, m0) && Scratched(m0, m)
    ensures m == m1.(rax := m0.rdi, r11 := m.r11, flags := m.flags, mem := m.mem)
    ensures forall a :: m.mem(a) == m1.mem(a) || m0.rdi <= a < m0.rdi + 64
  {
    hide Store, Wrap, SavedFlags, AddFlags;
    WrapSmall(m0.rsp - 24 + 16);
    m := m1;
    m := m.(rax := m.rdi);
    m := m.(r11 := m.mem(m.rsp + 16));
    m := Write(m, m.rax, m.r11);
    m := Write(m, m.rax + 8, m.rdx);
    m := Write(m, m.rax + 16, m.rcx);
    m := Write(m, m.rax + 24, m.rbx);
    m := Write(m, m.rax + 32, m.rsp);
    m := AddqMem(m, 16, m.rax + 32);
    m := Write(m, m.rax + 40, m.rbp);
    m := Write(m, m.rax + 48, m.rsi);
    m := m.(r11 := m.mem(m.rsp + 32));
    m := Write(m, m.rax + 56, m.r11);
  }

  /** The machine in the middle of _set_jmp with rax at the context. */
  predicate Saving(m0: Machine, m: Machine) {
    && Entry(m0) && Scratched(m0, m) && m.rax == m0.rdi && m.rdi == m0.rdi && m.r12 == m0.r12 && m.r13 == m0.r13
    && m.r14 == m0.r14 && m.r15 == m0.r15
  }

  method SaveMiddle(m0: Machine, m1: Machine) returns (m: Machine)
    requires Saving(m0, m1) && m1.r8 == m0.r8 && m1.r9 == m0.r9 && m1.r10 == m0.r10
    ensures HoldsMiddle(m.mem, m0.rdi, m0) && Saving(m0, m)
    ensures m == m1.(r11 := m.r11, mem := m.mem)
    ensures forall a :: m.mem(a) == m1.mem(a) || m0.rdi + 64 <= a < m0.rdi + 96
  {
    hide Store, SavedFlags;
    m := m1;
    m := Write(m, m.rax + 64, m.r8);
    m := Write(m, m.rax + 72, m.r9);
    m := Write(m, m.rax + 80, m.r10);
    m := m.(r11 := m.mem(m.rsp + 8));
    m := Write(m, m.rax + 88, m.r11);
  }

  method SaveHigh(m0: Machine, m1: Machine) returns (m: Machine)
    requires Saving(m0, m1)
    ensures HoldsHigh(m.mem, m0.rdi, m0) && m.mem(m0.rsp) == m0.mem(m0.rsp)
    ensures m == m1.(rdx := m.rdx, r11 := m.r11, mem := m.mem)
    ensures forall a :: m.mem(a) == m1.mem(a) || m0.rdi + 96 <= a < m0.rdi + 144
  {
    hide Store, SavedFlags;
    m := m1;
    m := Write(m, m.rax + 96, m.r12);
    m := Write(m, m.rax + 104, m.r13);
    m := Write(m, m.rax + 112, m.r14);
    m := Write(m, m.rax + 120, m.r15);
    m := m.(rdx := m.mem(m.rsp));
    m := Write(m, m.rax + 136, m.rdx);
    m := m.(r11 := m.mem(m.rsp + 24));
    m := Write(m, m.rax + 128, m.r11);
  }

  lemma FxsaveWrites(m: Machine, a: int)
    requires |m.fpu| == FPU_WORDS
    ensures var r := Fxsave(m, a);
      && r == m.(mem := r.mem)
      && (forall b :: r.mem(b) == m.mem(b) || a <= b < a + 512)
      && HoldsImage(r.mem, a, m.fpu)
  {
  }

  lemma SameLow(mem: int -> int, mem': int -> int, c: int, m: Machine)
    requires HoldsLow(mem, c, m) && forall a :: c <= a < c + 64 ==> mem'(a) == mem(a)
    ensures HoldsLow(mem', c, m)
  {
  }

  lemma SameMiddle(mem: int -> int, mem': int -> int, c: int, m: Machine)
    requires HoldsMiddle(mem, c, m) && forall a :: c + 64 <= a < c + 96 ==> mem'(a) == mem(a)
    ensures HoldsMiddle(mem', c, m)
  {
  }

  lemma SameHigh(mem: int -> int, mem': int -> int, c: int, m: Machine)
    requires HoldsHigh(mem, c, m) && forall a :: c + 96 <= a < c + 144 ==> mem'(a) == mem(a)
    ensures HoldsHigh(mem', c, m)
  {
  }

  lemma Leaves(m: Machine, sp: int)
    requires m.rsp == sp - 24 && 24 <= sp && sp + 16 <= TWO64
    ensures var r := Ret(XorqRax(AddqRsp(m, 24)));
      && r == m.(rax := 0, rsp := sp + 8, rip := m.mem(sp), flags := r.flags)
      && r.flags.zf && r.flags.pf && !r.flags.sf && !r.flags.cf && !r.flags.of
  {
    hide AddFlags;
  }

  /** _set_jmp. */
  method SetJmp(m0: Machine) returns (m: Machine)
    requires Entry(m0)
    ensures Holds(m.mem, m0.rdi, m0)
    ensures m.rax == 0 && m.rip == m0.mem(m0.rsp) && m.rsp == m0.rsp + 8
    ensures m.flags.zf && m.flags.pf && !m.flags.sf && !m.flags.cf && !m.flags.of
    ensures m == m0.(rax := 0, rdx := m.rdx, r11 := m.r11, rsp := m.rsp, rip := m.rip, flags := m.flags, mem := m.mem)
    ensures Framed(m0, m.mem)
  {
    hide Store, Wrap, SavedFlags, AddFlags, HoldsLow, HoldsMiddle, HoldsHigh, HoldsImage, Fxsave;
    m := SaveScratch(m0);
    m := SaveLow(m0, m);
    ghost var low := m;
    m := SaveMiddle(m0, m);
    ghost var middle := m;
    m := SaveHigh(m0, m);
    ghost var saved := m;
    FxsaveWrites(m, m.rax + 144);
    m := Fxsave(m, m.rax + 144);
    SameLow(low.mem, m.mem, m0.rdi, m0);
    SameMiddle(middle.mem, m.mem, m0.rdi, m0);
    SameHigh(saved.mem, m.mem, m0.rdi, m0);
    Leaves(m, m0.rsp);
    hide AddqRsp, XorqRax, Ret;
    m := AddqRsp(m, 24);
    m := XorqRax(m);
    m := Ret(m);
  }

  // ---------- _long_jmp ----------

  /** The context that rdi points to was saved by a machine that entered _set_jmp as e. */
  predicate Prepared(m: Machine, e: Machine) {
    Entry(e) && m.rdi == e.rdi && Holds(m.mem, m.rdi, e)
  }

  /** addb and sahf turn the saved word into the flags again, OF through an overflow. */
  lemma FlagsRestored(m: Machine, f: Flags)
    requires SavedFlags(m.rax, f)
    ensures Sahf(AddbAl(m, 0x7f)).flags == f
  {
    hide Ones;
    var n := AddbAl(m, 0x7f);
    assert m.rax % 256 == Bit(f.of);
    Bytes(m.rax / 65536, FlagByte(f), 0, (m.rax % 256 + 0x7f) % 256);
    assert n.rax / 256 % 256 == FlagByte(f) by {
      assert n.rax / 256 == m.rax / 256;
    }
    FlagBits(f);
  }

  lemma FlagBits(f: Flags)
    ensures var b := FlagByte(f);
      && 0 <= b < 256
      && (b / 128 % 2 == 1 <==> f.sf) && (b / 64 % 2 == 1 <==> f.zf) && (b / 16 % 2 == 1 <==> f.af)
      && (b / 4 % 2 == 1 <==> f.pf) && (b % 2 == 1 <==> f.cf)
  {
  }

  /** The other three bits of the byte do not depend on the flags. */
  lemma FixedBits(f: Flags)
    ensures var b := FlagByte(f); b / 2 % 2 == 1 && b / 8 % 2 == b / 32 % 2 == 0
  {
  }

  lemma ImageRestored(m: Machine, a: int, fpu: seq<int>)
    requires HoldsImage(m.mem, a, fpu)
    ensures Fxrstor(m, a) == m.(fpu := fpu)
  {
  }

  lemma StackWritesMiss(mem: int -> int, c: int, e: Machine, sp: int, v: int, w: int)
    requires Entry(e) && c == e.rdi && sp == e.rsp - 8 && Holds(mem, c, e)
    ensures Holds(Store(Store(mem, sp + 8, v), sp, w), c, e)
  {
  }

  /** Put the return address and the result on the old stack. */
  method PrepareStack(m0: Machine, ghost e: Machine) returns (m: Machine)
    requires Prepared(m0, e)
    ensures Prepared(m, e) && m.rax == m.rdi && m.mem(e.rsp) == e.mem(e.rsp) && m.mem(e.rsp - 8) == m0.rsi
    ensures m == m0.(rax := m0.rdi, r10 := m.r10, r11 := m.r11, mem := m.mem)
    ensures forall a :: m.mem(a) == m0.mem(a) || a == e.rsp - 8 || a == e.rsp
  {
    hide Store, SavedFlags, HoldsHigh, HoldsMiddle, HoldsLow, HoldsImage;
    SavedAddresses(m0.mem, m0.rdi, e);
    m := m0;
    m := m.(rax := m.rdi);
    m := m.(r10 := m.mem(m.rax + 128));
    m := m.(r11 := m.mem(m.rax + 32));
    StackWritesMiss(m.mem, m.rdi, e, m.r11, m.r10, m.rsi);
    m := Write(m, m.r11 + 8, m.r10);
    m := Write(m, m.r11, m.rsi);
  }

  lemma SavedAddresses(mem: int -> int, c: int, e: Machine)
    requires HoldsLow(mem, c, e) && HoldsHigh(mem, c, e)
    ensures mem(c + 128) == e.mem(e.rsp) && mem(c + 32) == e.rsp - 8 && SavedFlags(mem(c + 136), e.flags)
    ensures mem(c + 56) == e.mem(e.rsp + 8) && mem(c + 120) == e.r15
  {
  }

  /** Load the registers but rax, rdi and r15. */
  method LoadRegisters(m0: Machine, ghost e: Machine) returns (m: Machine)
    requires Prepared(m0, e) && m0.rax == m0.rdi
    ensures m == m0.(rdx := e.rdx, rcx := e.rcx, rbx := e.rbx, rsp := e.rsp - 8, rbp := e.rbp, rsi := e.rsi,
                     r8 := e.r8, r9 := e.r9, r10 := e.r10, r11 := e.r11, r12 := e.r12, r13 := e.r13, r14 := e.r14)
  {
    hide SavedFlags, HoldsImage;
    m := m0;
    m := m.(rdx := m.mem(m.rax + 8));
    m := m.(rcx := m.mem(m.rax + 16));
    m := m.(rbx := m.mem(m.rax + 24));
    m := m.(rsp := m.mem(m.rax + 32));
    m := m.(rbp := m.mem(m.rax + 40));
    m := m.(rsi := m.mem(m.rax + 48));
    m := m.(r8 := m.mem(m.rax + 64));
    m := m.(r9 := m.mem(m.rax + 72));
    m := m.(r10 := m.mem(m.rax + 80));
    m := m.(r11 := m.mem(m.rax + 88));
    m := m.(r12 := m.mem(m.rax + 96));
    m := m.(r13 := m.mem(m.rax + 104));
    m := m.(r14 := m.mem(m.rax + 112));
  }

  /** The machine that entered _set_jmp as e, returned from it with v. */
  ghost predicate Resumed(m: Machine, e: Machine, v: int) {
    && m == e.(rax := v, rdi := e.mem(e.rsp + 8), rsp := e.rsp + 8, rip := e.mem(e.rsp), mem := m.mem)
  }

  /** _long_jmp: whatever the machine, it comes back to the return address of the _set_jmp that saved
      the context, with every register, status flag and the floating-point state of that call, except
      that rax holds the second argument; of memory only the two slots it uses on the old stack change. */
  method LongJmp(m0: Machine, ghost e: Machine) returns (m: Machine)
    requires Prepared(m0, e)
    ensures Resumed(m, e, m0.rsi)
    ensures forall a :: m.mem(a) == m0.mem(a) || a == e.rsp - 8 || a == e.rsp
  {
    hide Store, SavedFlags, HoldsLow, HoldsMiddle, HoldsHigh, HoldsImage, AddFlags;
    m := PrepareStack(m0, e);
    m := LoadRegisters(m, e);
    SavedAddresses(m.mem, m.rdi, e);
    m := m.(rax := m.mem(m.rax + 136));
    FlagsRestored(m, e.flags);
    m := AddbAl(m, 0x7f);
    m := Sahf(m);
    m := m.(rax := m.rdi);
    m := m.(rdi := m.mem(m.rax + 56));
    m := m.(r15 := m.mem(m.rax + 120));
    ImageRestored(m, m.rax + 144, e.fpu);
    m := Fxrstor(m, m.rax + 144);
    m := m.(rsp := m.mem(m.rax + 32));
    m := m.(rax := m.mem(m.rsp), rsp := Wrap(m.rsp + 8));
    m := Ret(m);
  }

  /** What the caller of set_jmp sees, at whatever later time and on whatever stack long_jmp is called:
      if memory at the context is as _set_jmp left it, the jump resumes the call of set_jmp. */
  lemma RoundTrip(e: Machine, saved: Machine, later: Machine)
    requires Entry(e) && Holds(saved.mem, e.rdi, e)
    requires later.rdi == e.rdi && forall a :: e.rdi <= a < e.rdi + CONTEXT_SIZE ==> later.mem(a) == saved.mem(a)
    ensures Prepared(later, e)
  {
    SameLow(saved.mem, later.mem, e.rdi, e);
    SameMiddle(saved.mem, later.mem, e.rdi, e);
    SameHigh(saved.mem, later.mem, e.rdi, e);
  }

  /** context_switch passes the saved rax, so that nothing at all is lost. */
  lemma SwitchRestoresAll(e: Machine, later: Machine, final: Machine)
    requires Prepared(later, e) && later.rsi == later.mem(later.rdi) && Resumed(final, e, later.rsi)
    ensures final.rax == e.rax && Resumed(final, e, e.rax)
  {
  }
}
