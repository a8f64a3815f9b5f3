/** Memory for code, growing upwards from the start of a region, and for constants, growing downwards from its
    end. Addresses are offsets into the region, which starts at a page. */
module BinaryPool {
  import B = ProgramState
  import C = BranchCode
  import N = Padding
  import opened Division

  type Byte = B.Byte
  type Addr = int

  const PAGE := 4096
  const MAX_SIZE := 0x8000_0000
  const ALIGN := 16

  function Down(x: int, n: int): int
    requires n > 0
  {
    x - x % n
  }

  function Up(x: int, n: int): int
    requires n > 0
  {
    Down(x + n - 1, n)
  }

  predicate PowerOf2(n: nat) { n == 1 || (n > 0 && n % 2 == 0 && PowerOf2(n / 2)) }

  /** What is asked for as a constant: at most a page. */
  predicate ConstantSize(n: nat) { 0 < n <= PAGE && PowerOf2(n) }

  // ---- alignment ----

  lemma {:induction false} PowerDivides(n: nat, m: nat)
    requires PowerOf2(n) && PowerOf2(m) && n <= m
    ensures n > 0 && m % n == 0
  {
    if n > 1 {
      PowerDivides(n / 2, m / 2);
      var q := (m / 2) / (n / 2);
      assert m / 2 == q * (n / 2);
      MultipleMod(n, q);
      assert m == q * n;
    }
  }

  lemma MultipleMod(n: int, q: int)
    requires n > 0
    ensures (q * n) % n == 0
  {
    ModIs(q * n, q, 0, n);
  }

  lemma DownIs(x: int, n: int)
    requires n > 0
    ensures Down(x, n) % n == 0 && x - n < Down(x, n) <= x
  {
    var r := x % n;
    assert x == n * (x / n) + r;
    assert Down(x, n) == (x / n) * n;
    MultipleMod(n, x / n);
  }

  lemma PageIsPower()
    ensures PowerOf2(PAGE)
  {
    assert PowerOf2(1) && PowerOf2(2) && PowerOf2(4) && PowerOf2(8) && PowerOf2(16) && PowerOf2(32) && PowerOf2(64);
    assert PowerOf2(128) && PowerOf2(256) && PowerOf2(512) && PowerOf2(1024) && PowerOf2(2048);
  }

  /** Something aligned to its size does not cross a page. */
  lemma OnOnePage(x: int, size: nat)
    requires ConstantSize(size) && x % size == 0
    ensures x + size <= Down(x, PAGE) + PAGE
  {
    hide PowerOf2;
    PageIsPower();
    PowerDivides(size, PAGE);
    var k, q, a := PAGE / size, x / PAGE, x / size;
    assert x == a * size && PAGE == k * size;
    assert Down(x, PAGE) + PAGE == (q + 1) * PAGE;
    assert (q + 1) * PAGE == ((q + 1) * k) * size by { assert (q + 1) * (k * size) == ((q + 1) * k) * size; }
    DownIs(x, PAGE);
    MultiplesApart(a, (q + 1) * k, size);
  }

  // ---- the pool ----

  /** n bytes at a are bs. */
  ghost predicate Holds(mem: seq<Byte>, a: Addr, bs: seq<Byte>) {
    0 <= a && a + |bs| <= |mem| && mem[a..a + |bs|] == bs
  }

  lemma HoldsSame(mem: seq<Byte>, mem': seq<Byte>, from: Addr, a: Addr, bs: seq<Byte>)
    requires |mem| == |mem'| && 0 <= from <= a && (forall i | from <= i < |mem| :: mem'[i] == mem[i])
    requires Holds(mem, a, bs)
    ensures Holds(mem', a, bs)
  {
    assert mem'[a..a + |bs|] == mem[a..a + |bs|];
  }

  class Pool {
    const mmapSize: nat
    const mem: array<Byte>
    // how far the page pointers move: PAGE, or what the code says, 1
    const step: nat
    var curInstrPage: Addr
    var nextInstr: Addr
    var curConstPage: Addr
    var nextConst: Addr
    var map64: map<nat, Addr>
    var map128: map<nat, Addr>
    // the constants handed out since the last reset
    ghost var constants: map<Addr, seq<Byte>>

    /** Code below, constants above, and whole pages for each. A pointer that moves by 1 never leaves its page. */
    predicate Layout()
      reads this
    {
      && mem.Length == mmapSize && mmapSize % PAGE == 0
      && (step == PAGE || (step == 1 && curInstrPage == 0 && curConstPage + PAGE == mmapSize))
      && curInstrPage % PAGE == 0 && curConstPage % PAGE == 0
      && 0 <= curInstrPage <= nextInstr <= curInstrPage + PAGE <= curConstPage <= nextConst + 1 <= curConstPage + PAGE <= mmapSize
    }

    /** All constants handed out still hold their values. */
    ghost predicate AllKept()
      reads this, mem
    {
      KeptIn(mem[..], nextConst, constants)
    }

    ghost predicate Interned()
      reads this
    {
      InternedIn(map64, 8, constants) && InternedIn(map128, 16, constants)
    }

    ghost predicate Valid()
      reads this, mem
    {
      Layout() && AllKept() && Interned()
    }

    constructor (size: nat, step: nat)
      requires SizeOk(size) && (step == 1 || step == PAGE)
      ensures Valid() && mmapSize == size && this.step == step && constants == map[] && nextInstr == 0 && fresh(mem)
    {
      mmapSize, this.step := size, step;
      mem := new Byte[size](_ => 0);
      curInstrPage, nextInstr := 0, 0;
      curConstPage, nextConst := size - PAGE, size - 1;
      map64, map128, constants := map[], map[], map[];
    }

    /** Fresh memory in place of what was there. The system refuses to begin it inside a page. */
    method Map(start: Addr, len: nat) returns (ok: bool)
      requires 0 <= start && start + len <= mem.Length
      modifies mem
      ensures ok == (start % PAGE == 0)
      ensures forall i | 0 <= i < mem.Length && !(start <= i < start + len) :: mem[i] == old(mem[i])
    {
      if start % PAGE != 0 { return false; }
      forall i | start <= i < start + len { mem[i] := 0; }
      ok := true;
    }

    /** The code ends on the current page, or the pool goes on by pages and there is one left. */
    ghost predicate CodeFits(size: nat) reads this {
      Down(nextInstr + size - 1, PAGE) == curInstrPage || (step == PAGE && curInstrPage + PAGE < curConstPage)
    }

    /** The same for a constant, of a size the pool takes. */
    ghost predicate ConstantFits(n: nat) reads this {
      PowerOf2(n) && (PlaceFor(nextConst, n) >= curConstPage || (step == PAGE && curInstrPage + PAGE < curConstPage))
    }

    /** Room for code, right behind the code so far. Of a request for nothing, or for more than a page, the
        code gets the page wrong: the pool is as it should be only after the others. */
    method AllocCode(size: nat) returns (ok: bool, a: Addr)
      requires Valid()
      modifies this`curInstrPage, this`nextInstr, mem
      ensures ok <==> old(CodeFits(size))
      ensures !ok ==> nextInstr == old(nextInstr) && curInstrPage == old(curInstrPage)
      ensures 0 < size <= PAGE ==> (Down(old(nextInstr) + size - 1, PAGE) == old(curInstrPage) <==> old(nextInstr) + size <= old(curInstrPage) + PAGE)
      ensures ok ==> a == old(nextInstr) && nextInstr == a + size && (0 < size <= PAGE ==> Valid())
      ensures ok ==> curInstrPage == old(curInstrPage) + (if Down(a + size - 1, PAGE) == old(curInstrPage) then 0 else PAGE)
      ensures ok ==> forall i | 0 <= i < a :: mem[i] == old(mem[i])
    {
      hide KeptIn, Down, InternedIn, Aligned;
      if 0 < size <= PAGE { PageOf(nextInstr + size - 1, curInstrPage); }
      if Down(nextInstr + size - 1, PAGE) != curInstrPage {
        var tmp := curInstrPage + step;
        if tmp == curConstPage { return false, 0; }
        PageAfter(curInstrPage, step);
        var mapped := Map(tmp, PAGE);
        if !mapped { return false, 0; }
        curInstrPage := tmp;
      }
      nextInstr := nextInstr + size;
      StillKept(constants, old(mem[..]), mem[..], curConstPage, nextConst);
      return true, nextInstr - size;
    }

    /** The next block begins at a multiple of 16; what is skipped are no-operations. */
    method NewBlock(write: bool)
      requires Valid()
      modifies this`nextInstr, mem
      ensures Valid() && nextInstr == Up(old(nextInstr), ALIGN)
      ensures nextInstr % ALIGN == 0 && old(nextInstr) <= nextInstr < old(nextInstr) + ALIGN
      ensures forall i | 0 <= i < old(nextInstr) :: mem[i] == old(mem[i])
      ensures write ==> mem[old(nextInstr)..nextInstr] == C.Nops(nextInstr - old(nextInstr))
      ensures write ==> N.Pads(mem[old(nextInstr)..], nextInstr - old(nextInstr))
    {
      hide KeptIn, C.Nops, N.Pads, Up;
      ghost var start := nextInstr;
      BlockStart(nextInstr, curInstrPage);
      if nextInstr % ALIGN != 0 {
        var aligned := Up(nextInstr, ALIGN);
        if write { Fill(nextInstr, C.Nops(aligned - nextInstr)); }
        nextInstr := aligned;
      }
      if write { N.FilledPads(mem[..], start, nextInstr - start); }
      StillKept(constants, old(mem[..]), mem[..], curConstPage, nextConst);
    }

    /** Copy bytes to an address. */
    method Fill(start: Addr, bs: seq<Byte>)
      requires 0 <= start && start + |bs| <= mem.Length
      modifies mem
      ensures mem[start..start + |bs|] == bs
      ensures forall i | 0 <= i < mem.Length && !(start <= i < start + |bs|) :: mem[i] == old(mem[i])
    {
      forall i | start <= i < start + |bs| { mem[i] := bs[i - start]; }
    }

    /** Get the page of a, which is the current one or the one below. */
    method ConstantPage(a: Addr) returns (ok: bool)
      requires Layout() && (Down(a, PAGE) == if a >= curConstPage then curConstPage else curConstPage - PAGE)
      modifies this`curConstPage, mem
      ensures ok <==> a >= old(curConstPage) || (step == PAGE && curInstrPage + PAGE < old(curConstPage))
      ensures !ok ==> curConstPage == old(curConstPage)
      ensures ok ==> curConstPage == (if a >= old(curConstPage) then old(curConstPage) else old(curConstPage) - PAGE) && curConstPage % PAGE == 0
      ensures ok ==> forall i | 0 <= i < mem.Length && (i < curInstrPage + PAGE || old(curConstPage) <= i) :: mem[i] == old(mem[i])
    {
      hide Down;
      if curInstrPage + PAGE < curConstPage { PagesApart(curInstrPage + PAGE, curConstPage); }
      if Down(a, PAGE) != curConstPage {
        var tmp := curConstPage - step;
        if tmp == curInstrPage { return false; }
        PageAfter(curConstPage, 0 - step as int);
        ok := Map(tmp, PAGE);
        if !ok { return; }
        curConstPage := tmp;
      }
      ok := true;
    }

    /** Below all constants so far, as high as its alignment allows. */
    method AllocConstantBytes(bs: seq<Byte>) returns (ok: bool, a: Addr)
      requires Valid() && |bs| <= PAGE
      modifies this`curConstPage, this`nextConst, this`constants, mem
      ensures ok <==> old(ConstantFits(|bs|))
      ensures !ok ==> nextConst == old(nextConst) && curConstPage == old(curConstPage) && constants == old(constants)
      ensures ok ==> Valid() && a == PlaceFor(old(nextConst), |bs|) && constants == old(constants)[a := bs] && a !in old(constants)
      ensures ok ==> Aligned(a, |bs|) && a + |bs| <= old(nextConst) + 1 < a + 2 * |bs| && nextConst == a - 1 && curConstPage == Down(a, PAGE)
      ensures ok ==> forall i | 0 <= i < curInstrPage + PAGE :: mem[i] == old(mem[i])
    {
      hide KeptIn, PowerOf2, ConstantSize, B.Bytes, Down, PlaceFor, InternedIn, Aligned;
      if !PowerOf2(|bs|) { return false, 0; }
      SomeSize(|bs|);
      a := PlaceFor(nextConst, |bs|);
      PlaceOnPage(nextConst, |bs|, curConstPage);
      ok := ConstantPage(a);
      if !ok { return; }
      Fill(a, bs);
      nextConst := a - 1;
      constants := constants[a := bs];
      OneMoreKept(old(constants), old(mem[..]), mem[..], old(nextConst), a, bs);
      StillInterned(map64, map128, old(constants), a, bs);
    }

    /** A 64-bit constant: the one there is already, if there is one. */
    method AllocConstant64(v: nat) returns (ok: bool, a: Addr)
      requires Valid() && v < B.Pow256(8)
      modifies this`curConstPage, this`nextConst, this`constants, this`map64, mem
      ensures ok ==> Valid() && a in constants && constants[a] == B.Bytes(v, 8) && (forall x | x in old(constants) :: x in constants && constants[x] == old(constants[x]))
      ensures ok <==> v in old(map64) || old(ConstantFits(8))
      ensures !ok ==> map64 == old(map64) && nextConst == old(nextConst) && curConstPage == old(curConstPage) && constants == old(constants)
      ensures v in old(map64) ==> ok && a == old(map64[v]) && constants == old(constants) && nextConst == old(nextConst)
      ensures ok && v !in old(map64) ==> constants == old(constants)[a := B.Bytes(v, 8)] && nextConst == a - 1 && a + 8 <= old(nextConst) + 1 < a + 16
      ensures ok ==> map64 == old(map64)[v := a] && forall i | 0 <= i < curInstrPage + PAGE :: mem[i] == old(mem[i])
    {
      hide B.Bytes, B.Pow256, KeptIn, PowerOf2, PlaceFor;
      if v in map64 { return true, map64[v]; }
      ok, a := AllocConstantBytes(B.Bytes(v, 8));
      if ok { map64 := map64[v := a]; }
    }

    method AllocConstant128(v: nat) returns (ok: bool, a: Addr)
      requires Valid() && v < B.Pow256(16)
      modifies this`curConstPage, this`nextConst, this`constants, this`map128, mem
      ensures ok ==> Valid() && a in constants && constants[a] == B.Bytes(v, 16) && (forall x | x in old(constants) :: x in constants && constants[x] == old(constants[x]))
      ensures ok <==> v in old(map128) || old(ConstantFits(16))
      ensures !ok ==> map128 == old(map128) && nextConst == old(nextConst) && curConstPage == old(curConstPage) && constants == old(constants)
      ensures v in old(map128) ==> ok && a == old(map128[v]) && constants == old(constants) && nextConst == old(nextConst)
      ensures ok && v !in old(map128) ==> constants == old(constants)[a := B.Bytes(v, 16)] && nextConst == a - 1 && a + 16 <= old(nextConst) + 1 < a + 32
      ensures ok ==> map128 == old(map128)[v := a] && forall i | 0 <= i < curInstrPage + PAGE :: mem[i] == old(mem[i])
    {
      hide B.Bytes, B.Pow256, KeptIn, PowerOf2, PlaceFor;
      if v in map128 { return true, map128[v]; }
      ok, a := AllocConstantBytes(B.Bytes(v, 16));
      if ok { map128 := map128[v := a]; }
    }

    /** All code goes, constants stay. */
    method ResetCodePool()
      requires Valid()
      modifies this`curInstrPage, this`nextInstr, mem
      ensures Valid() && nextInstr == 0 && curInstrPage == 0
    {
      hide KeptIn;
      PageAfter(0, 0);
      var ok := Map(0, curInstrPage + PAGE);
      curInstrPage := 0;
      ok := Map(0, PAGE);
      nextInstr := 0;
      StillKept(constants, old(mem[..]), mem[..], curConstPage, nextConst);
    }

    /** All constants go, code stays. */
    method ResetConstantPool()
      requires Valid()
      modifies this`curConstPage, this`nextConst, this`constants, this`map64, this`map128, mem
      ensures Valid() && constants == map[] && map64 == map128 == map[] && nextConst == mmapSize - 1 && curConstPage == mmapSize - PAGE
      ensures forall i | 0 <= i < nextInstr :: mem[i] == old(mem[i])
    {
      map64, map128, constants := map[], map[], map[];
      var ok := Map(curConstPage, mmapSize - curConstPage);
      LastPage(mmapSize);
      curConstPage := mmapSize - PAGE;
      ok := Map(curConstPage, PAGE);
      nextConst := curConstPage + PAGE - 1;
    }
  }

  /** What a pool is asked for. */
  datatype Request =
    | Code(size: nat) | Block(write: bool) | ResetCode
    | Constant(bs: seq<Byte>) | Constant64(v: nat) | Constant128(v: nat) | ResetConstants

  predicate ValidRequest(r: Request) {
    match r
    case Code(size) => 0 < size <= PAGE
    case Constant(bs) => |bs| <= PAGE
    case Constant64(v) => v < B.Pow256(8)
    case Constant128(v) => v < B.Pow256(16)
    case _ => true
  }

  function ConstantOf(r: Request): (bs: seq<Byte>) {
    match r
    case Constant(bs) => bs
    case Constant64(v) => B.Bytes(v, 8)
    case Constant128(v) => B.Bytes(v, 16)
    case _ => []
  }

  predicate IsConstant(r: Request) { r.Constant? || r.Constant64? || r.Constant128? }

  /** Request k is a constant, and constants have not been reset since. */
  predicate Lasting(reqs: seq<Request>, k: nat, n: nat)
    requires k < n <= |reqs|
  {
    IsConstant(reqs[k]) && forall j | k < j < n :: !reqs[j].ResetConstants?
  }

  /** The first n requests have been served: the constants that last are known at the addresses returned for them. */
  ghost predicate Served(reqs: seq<Request>, n: nat, addrs: seq<Addr>, constants: map<Addr, seq<Byte>>)
    requires n <= |reqs|
  {
    |addrs| == n && forall k | 0 <= k < n && Lasting(reqs, k, n) :: addrs[k] in constants && constants[addrs[k]] == ConstantOf(reqs[k])
  }

  lemma ServedOne(reqs: seq<Request>, n: nat, addrs: seq<Addr>, was: map<Addr, seq<Byte>>, now: map<Addr, seq<Byte>>, a: Addr)
    requires n < |reqs| && Served(reqs, n, addrs, was)
    requires !reqs[n].ResetConstants? ==> forall x | x in was :: x in now && now[x] == was[x]
    requires IsConstant(reqs[n]) ==> a in now && now[a] == ConstantOf(reqs[n])
    ensures Served(reqs, n + 1, addrs + [a], now)
  {
    hide ConstantOf;
    forall k | 0 <= k < n + 1 && Lasting(reqs, k, n + 1)
      ensures (addrs + [a])[k] in now && now[(addrs + [a])[k]] == ConstantOf(reqs[k])
    {
      if k < n {
        assert !reqs[n].ResetConstants?;
        assert Lasting(reqs, k, n);
        assert addrs[k] in was;
        assert (addrs + [a])[k] == addrs[k];
      } else {
        assert (addrs + [a])[k] == a;
      }
    }
  }

  /** There is room in the pool for what is asked for. */
  ghost predicate HasRoom(pool: Pool, r: Request)
    reads pool
  {
    match r
    case Code(size) => pool.CodeFits(size)
    case Constant(bs) => pool.ConstantFits(|bs|)
    case Constant64(v) => v in pool.map64 || pool.ConstantFits(8)
    case Constant128(v) => v in pool.map128 || pool.ConstantFits(16)
    case _ => true
  }

  /** Serve one request. */
  method ServeOne(pool: Pool, r: Request) returns (ok: bool, a: Addr)
    requires pool.Valid() && ValidRequest(r)
    modifies pool, pool.mem
    ensures ok <==> old(HasRoom(pool, r))
    ensures ok ==> pool.Valid()
    ensures !ok ==> !HasRoom(pool, r)
    ensures ok && !r.ResetConstants? ==> forall x | x in old(pool.constants) :: x in pool.constants && pool.constants[x] == old(pool.constants[x])
    ensures ok && IsConstant(r) ==> a in pool.constants && pool.constants[a] == ConstantOf(r)
  {
    hide KeptIn, InternedIn, PowerOf2, PlaceFor, B.Bytes, B.Pow256, Down;
    ok, a := true, 0;
    match r {
      case Code(size) => ok, a := pool.AllocCode(size);
      case Block(write) => pool.NewBlock(write);
      case ResetCode => pool.ResetCodePool();
      case Constant(bs) => ok, a := pool.AllocConstantBytes(bs);
      case Constant64(v) => ok, a := pool.AllocConstant64(v);
      case Constant128(v) => ok, a := pool.AllocConstant128(v);
      case ResetConstants => pool.ResetConstantPool();
    }
  }

  /** However code, constants and resets are mixed, every constant asked for since the last reset of the constants is
      still at the address returned for it, unless there was no room for a request. */
  method Serve(pool: Pool, reqs: seq<Request>) returns (ok: bool, addrs: seq<Addr>)
    requires pool.Valid() && forall k | 0 <= k < |reqs| :: ValidRequest(reqs[k])
    modifies pool, pool.mem
    ensures ok ==> pool.Valid() && |addrs| == |reqs|
    ensures !ok ==> |addrs| < |reqs| && !HasRoom(pool, reqs[|addrs|])
    ensures ok ==> forall k | 0 <= k < |reqs| && Lasting(reqs, k, |reqs|) :: Holds(pool.mem[..], addrs[k], ConstantOf(reqs[k]))
  {
    hide KeptIn, ValidRequest, ConstantOf, IsConstant;
    addrs := [];
    var n := 0;
    while n < |reqs|
      invariant n <= |reqs| && pool.Valid() && Served(reqs, n, addrs, pool.constants)
    {
      ghost var was := pool.constants;
      var a;
      ok, a := ServeOne(pool, reqs[n]);
      if !ok { return; }
      ServedOne(reqs, n, addrs, was, pool.constants, a);
      addrs := addrs + [a];
      n := n + 1;
    }
    ok := true;
    forall k | 0 <= k < |reqs| && Lasting(reqs, k, |reqs|) ensures Holds(pool.mem[..], addrs[k], ConstantOf(reqs[k])) {
      KeptHolds(pool.mem[..], pool.nextConst, pool.constants, addrs[k]);
    }
  }

  lemma KeptHolds(mem: seq<Byte>, nextConst: Addr, constants: map<Addr, seq<Byte>>, a: Addr)
    requires KeptIn(mem, nextConst, constants) && a in constants
    ensures Holds(mem, a, constants[a])
  {
    assert Kept(mem, nextConst, a, constants[a]);
  }

  predicate SizeOk(size: nat) { size % PAGE == 0 && 2 * PAGE <= size <= MAX_SIZE }

  /** The highest place for n bytes up to next, aligned to n. */
  function PlaceFor(next: Addr, n: nat): Addr { if n == 0 then 0 else Down(next - n + 1, n) }

  lemma PageOf(x: int, page: int)
    requires page % PAGE == 0 && page <= x < page + 2 * PAGE
    ensures Down(x, PAGE) == if x < page + PAGE then page else page + PAGE
  {
  }

  lemma PageAfter(page: int, step: int)
    requires page % PAGE == 0 && (step == 0 || step == 1 || step == PAGE || step == -1 || step == -PAGE)
    ensures (page + step) % PAGE == 0 <==> step != 1 && step != -1
  {
  }

  lemma LastPage(size: nat)
    requires size % PAGE == 0
    ensures (size - PAGE) % PAGE == 0
  {
  }

  /** Rounding up does not leave the page. */
  lemma BlockStart(x: int, page: int)
    requires page % PAGE == 0 && page <= x <= page + PAGE
    ensures x <= Up(x, ALIGN) < x + ALIGN && Up(x, ALIGN) % ALIGN == 0 && Up(x, ALIGN) <= page + PAGE && (x % ALIGN == 0 ==> Up(x, ALIGN) == x)
  {
    var u, v := (x + 15) / 16, 256 * (page / 4096) + 256;
    UpIs(x);
    assert page + PAGE == 16 * v;
    hide Up;
    assert u <= v;
  }

  lemma UpIs(x: int)
    ensures Up(x, ALIGN) == 16 * ((x + 15) / 16) && x <= Up(x, ALIGN) < x + ALIGN && Up(x, ALIGN) % ALIGN == 0
    ensures x % ALIGN == 0 ==> Up(x, ALIGN) == x
  {
    var u := (x + 15) / 16;
    assert x + 15 == 16 * u + (x + 15) % 16;
    assert x == 16 * (x / 16) + x % 16;
  }

  predicate Aligned(a: Addr, n: nat) { n > 0 && a % n == 0 }

  lemma SomeSize(n: nat)
    requires PowerOf2(n) && n <= PAGE
    ensures ConstantSize(n) && n > 0
  {
  }

  /** The place is below next and on the current page or the one below. */
  lemma PlaceOnPage(next: Addr, n: nat, page: int)
    requires ConstantSize(n) && page % PAGE == 0 && page <= next + 1 <= page + PAGE
    ensures var a := PlaceFor(next, n);
            && Aligned(a, n) && a + n <= next + 1 < a + 2 * n && page - PAGE <= a
            && Down(a, PAGE) == (if a >= page then page else page - PAGE)
            && (a < page ==> a + n <= page)
  {
    hide PowerOf2, Down;
    var a := PlaceFor(next, n);
    DownIs(next - n + 1, n);
    OnOnePage(a, n);
    PageIsPower();
    PowerDivides(n, PAGE);
    PageMultiple(page, n);
    AboveMultiple(next - n + 1, n, page - n);
    PageOf(a, page - PAGE);
  }

  /** A page is a multiple of everything that fits into it. */
  lemma PageMultiple(page: int, n: nat)
    requires n > 0 && page % PAGE == 0 && PAGE % n == 0
    ensures (page - n) % n == 0
  {
    var k, q := PAGE / n, page / PAGE;
    assert page == (q * k) * n by { assert q * (k * n) == (q * k) * n; }
    MultipleMod(n, q * k - 1);
    assert (q * k - 1) * n == page - n;
  }

  /** Rounding down does not pass a multiple. */
  lemma AboveMultiple(x: int, n: nat, m: int)
    requires n > 0 && m % n == 0 && m <= x
    ensures m <= Down(x, n)
  {
    var d := (x - m) / n;
    assert x - m == n * d + (x - m) % n;
    ModShift(x, m / n, n);
    assert m == n * (m / n);
    assert x % n == (x - m) % n;
    assert n * d >= 0;
  }

  lemma StillKept(constants: map<Addr, seq<Byte>>, mem: seq<Byte>, mem': seq<Byte>, from: Addr, nextConst: Addr)
    requires |mem| == |mem'| && 0 <= from <= nextConst + 1 && (forall i | from <= i < |mem| :: mem'[i] == mem[i])
    requires KeptIn(mem, nextConst, constants)
    ensures KeptIn(mem', nextConst, constants)
  {
    hide Holds, ConstantSize;
    forall a | a in constants ensures Kept(mem', nextConst, a, constants[a]) {
      HoldsSame(mem, mem', from, a, constants[a]);
    }
  }

  lemma OneMoreKept(constants: map<Addr, seq<Byte>>, mem: seq<Byte>, mem': seq<Byte>, nextConst: Addr, a: Addr, bs: seq<Byte>)
    requires |mem| == |mem'| && 0 <= a && |bs| > 0 && a + |bs| <= nextConst + 1 && nextConst < |mem| && (forall i | nextConst < i < |mem| :: mem'[i] == mem[i])
    requires KeptIn(mem, nextConst, constants)
    requires mem'[a..a + |bs|] == bs && ConstantSize(|bs|) && Aligned(a, |bs|)
    ensures a !in constants && KeptIn(mem', a - 1, constants[a := bs])
  {
    hide ConstantSize;
    assert a in constants ==> Kept(mem, nextConst, a, constants[a]);
    forall x | x in constants ensures Kept(mem', a - 1, x, constants[x]) {
      assert Kept(mem, nextConst, x, constants[x]);
      HoldsSame(mem, mem', nextConst + 1, x, constants[x]);
    }
  }

  /** A constant that is looked up is one that was handed out with that value. */
  ghost predicate InternedIn(m: map<nat, Addr>, n: nat, constants: map<Addr, seq<Byte>>) {
    forall v | v in m :: m[v] in constants && constants[m[v]] == B.Bytes(v, n)
  }

  lemma StillInterned(m: map<nat, Addr>, m': map<nat, Addr>, constants: map<Addr, seq<Byte>>, a: Addr, bs: seq<Byte>)
    requires InternedIn(m, 8, constants) && InternedIn(m', 16, constants) && a !in constants
    ensures InternedIn(m, 8, constants[a := bs]) && InternedIn(m', 16, constants[a := bs])
  {
    hide B.Bytes;
  }

  lemma PagesApart(p: int, q: int)
    requires p % PAGE == 0 && q % PAGE == 0 && p < q
    ensures p + PAGE <= q
  {
  }

  ghost predicate KeptIn(mem: seq<Byte>, nextConst: Addr, constants: map<Addr, seq<Byte>>) {
    forall a | a in constants :: Kept(mem, nextConst, a, constants[a])
  }

  /** A constant is where it was put, among the constants, and aligned to its size. */
  ghost predicate Kept(mem: seq<Byte>, nextConst: Addr, a: Addr, bs: seq<Byte>) {
    nextConst < a && Holds(mem, a, bs) && ConstantSize(|bs|) && Aligned(a, |bs|)
  }
}
