/**
 * The schedule of the MD5 block function over any type of word: which step uses which input word,
 * additive constant, rotation and registers.  The tables follow section 3.4 of RFC 1321; the
 * unrolled steps follow apps/speedtest/md5.c.
 */
module Md5Schedule {
  datatype Registers<W> = Registers(a: W, b: W, c: W, d: W)

  /** What one operation uses: the index of an input word, an additive constant, a rotation. */
  datatype Row = Row(k: Index, t: nat, s: nat)

  type Index = k: nat | k < 16

  /** The four round functions, the value a step gives to its register, and the table of operations. */
  datatype Alu<!W> = Alu(
    f1: (W, W, W) -> W,
    f2: (W, W, W) -> W,
    f3: (W, W, W) -> W,
    f4: (W, W, W) -> W,
    step: (W, W, W, W, nat, nat) -> W,  // function value, register, next register, input word, constant, rotation
    table: nat -> Row)

  // ---------------------------------------------------------------- the tables of section 3.4

  /** The integer part of 4294967296 times abs(sin(i + 1)). */
  const SINES: seq<seq<nat>> := [
    [0xd76aa478, 0xe8c7b756, 0x242070db, 0xc1bdceee],
    [0xf57c0faf, 0x4787c62a, 0xa8304613, 0xfd469501],
    [0x698098d8, 0x8b44f7af, 0xffff5bb1, 0x895cd7be],
    [0x6b901122, 0xfd987193, 0xa679438e, 0x49b40821],
    [0xf61e2562, 0xc040b340, 0x265e5a51, 0xe9b6c7aa],
    [0xd62f105d, 0x02441453, 0xd8a1e681, 0xe7d3fbc8],
    [0x21e1cde6, 0xc33707d6, 0xf4d50d87, 0x455a14ed],
    [0xa9e3e905, 0xfcefa3f8, 0x676f02d9, 0x8d2a4c8a],
    [0xfffa3942, 0x8771f681, 0x6d9d6122, 0xfde5380c],
    [0xa4beea44, 0x4bdecfa9, 0xf6bb4b60, 0xbebfbc70],
    [0x289b7ec6, 0xeaa127fa, 0xd4ef3085, 0x04881d05],
    [0xd9d4d039, 0xe6db99e5, 0x1fa27cf8, 0xc4ac5665],
    [0xf4292244, 0x432aff97, 0xab9423a7, 0xfc93a039],
    [0x655b59c3, 0x8f0ccc92, 0xffeff47d, 0x85845dd1],
    [0x6fa87e4f, 0xfe2ce6e0, 0xa3014314, 0x4e0811a1],
    [0xf7537e82, 0xbd3af235, 0x2ad7d2bb, 0xeb86d391]
  ]

  function T(i: nat): nat {
    if i < 64 then SINES[i / 4][i % 4] else 0
  }

  /** Index of the input word operation `i` uses. */
  function K(i: nat): (k: nat)
    ensures k < 16
  {
    if i < 16 then i else if i < 32 then (5 * i + 1) % 16 else if i < 48 then (3 * i + 5) % 16 else (7 * i) % 16
  }

  function S(i: nat): (s: nat)
    ensures 0 < s < 32
  {
    var n := i % 4;
    if i < 16 then (if n == 0 then 7 else if n == 1 then 12 else if n == 2 then 17 else 22)
    else if i < 32 then (if n == 0 then 5 else if n == 1 then 9 else if n == 2 then 14 else 20)
    else if i < 48 then (if n == 0 then 4 else if n == 1 then 11 else if n == 2 then 16 else 23)
    else (if n == 0 then 6 else if n == 1 then 10 else if n == 2 then 15 else 21)
  }

  function TableRow(i: nat): Row { Row(K(i), T(i), S(i)) }

  function Aux<W>(alu: Alu<W>, i: nat, x: W, y: W, z: W): W {
    if i < 16 then alu.f1(x, y, z) else if i < 32 then alu.f2(x, y, z)
    else if i < 48 then alu.f3(x, y, z) else alu.f4(x, y, z)
  }

  /** Operation `i` on registers named from the one it changes. */
  function Operate<W>(alu: Alu<W>, x: seq<W>, i: nat, a: W, b: W, c: W, d: W): W
    requires |x| == 16 && i < 64
  {
    var row := alu.table(i);
    alu.step(Aux(alu, i, b, c, d), a, b, x[row.k], row.t, row.s)
  }

  /** The operations change register A, D, C and B in turn. */
  function Operation<W>(alu: Alu<W>, r: Registers<W>, x: seq<W>, i: nat): Registers<W>
    requires |x| == 16 && i < 64
  {
    if i % 4 == 0 then r.(a := Operate(alu, x, i, r.a, r.b, r.c, r.d))
    else if i % 4 == 1 then r.(d := Operate(alu, x, i, r.d, r.a, r.b, r.c))
    else if i % 4 == 2 then r.(c := Operate(alu, x, i, r.c, r.d, r.a, r.b))
    else r.(b := Operate(alu, x, i, r.b, r.c, r.d, r.a))
  }

  function Operations<W>(alu: Alu<W>, r: Registers<W>, x: seq<W>, n: nat): Registers<W>
    requires |x| == 16 && n <= 64
  {
    if n == 0 then r else Operation(alu, Operations(alu, r, x, n - 1), x, n - 1)
  }

  ghost predicate SameFunction<W(!new)>(f: (W, W, W) -> W, g: (W, W, W) -> W) {
    forall x, y, z :: f(x, y, z) == g(x, y, z)
  }

  ghost predicate SameAlu<W(!new)>(p: Alu<W>, q: Alu<W>) {
    && SameFunction(p.f1, q.f1) && SameFunction(p.f2, q.f2) && SameFunction(p.f3, q.f3) && SameFunction(p.f4, q.f4)
    && p.table == q.table
    && forall f, a, b, x, t, s :: p.step(f, a, b, x, t, s) == q.step(f, a, b, x, t, s)
  }

  /** Word operations that agree everywhere give the same registers. */
  lemma {:induction false} SameOperations<W(!new)>(p: Alu<W>, q: Alu<W>, r: Registers<W>, x: seq<W>, n: nat)
    requires |x| == 16 && n <= 64 && SameAlu(p, q)
    ensures Operations(p, r, x, n) == Operations(q, r, x, n)
  {
    if n > 0 {
      SameOperations(p, q, r, x, n - 1);
    }
  }

  lemma ChangeA<W>(alu: Alu<W>, start: Registers<W>, x: seq<W>, n: nat)
    requires |x| == 16 && n < 64 && n % 4 == 0
    ensures var r := Operations(alu, start, x, n);
            Operations(alu, start, x, n + 1) == Registers(Operate(alu, x, n, r.a, r.b, r.c, r.d), r.b, r.c, r.d)
  {
  }

  lemma ChangeD<W>(alu: Alu<W>, start: Registers<W>, x: seq<W>, n: nat)
    requires |x| == 16 && n < 64 && n % 4 == 1
    ensures var r := Operations(alu, start, x, n);
            Operations(alu, start, x, n + 1) == Registers(r.a, r.b, r.c, Operate(alu, x, n, r.d, r.a, r.b, r.c))
  {
  }

  lemma ChangeC<W>(alu: Alu<W>, start: Registers<W>, x: seq<W>, n: nat)
    requires |x| == 16 && n < 64 && n % 4 == 2
    ensures var r := Operations(alu, start, x, n);
            Operations(alu, start, x, n + 1) == Registers(r.a, r.b, Operate(alu, x, n, r.c, r.d, r.a, r.b), r.d)
  {
  }

  lemma ChangeB<W>(alu: Alu<W>, start: Registers<W>, x: seq<W>, n: nat)
    requires |x| == 16 && n < 64 && n % 4 == 3
    ensures var r := Operations(alu, start, x, n);
            Operations(alu, start, x, n + 1) == Registers(r.a, Operate(alu, x, n, r.b, r.c, r.d, r.a), r.c, r.d)
  {
  }

  /** Four operations, spelled out. */
  lemma Unroll<W>(alu: Alu<W>, start: Registers<W>, x: seq<W>, n: nat)
    requires |x| == 16 && n <= 60 && n % 4 == 0
    ensures var r := Operations(alu, start, x, n);
            var a := Operate(alu, x, n, r.a, r.b, r.c, r.d);
            var d := Operate(alu, x, n + 1, r.d, a, r.b, r.c);
            var c := Operate(alu, x, n + 2, r.c, d, a, r.b);
            var b := Operate(alu, x, n + 3, r.b, c, d, a);
            Operations(alu, start, x, n + 4) == Registers(a, b, c, d)
  {
    ChangeA(alu, start, x, n);
    ChangeD(alu, start, x, n + 1);
    ChangeC(alu, start, x, n + 2);
    ChangeB(alu, start, x, n + 3);
  }

  // ---------------------------------------------------------------- the unrolled steps

  method Steps0to3<W>(alu: Alu<W>, ghost start: Registers<W>, r: Registers<W>, x: seq<W>) returns (q: Registers<W>)
    requires |x| == 16 && alu.table == TableRow && r == Operations(alu, start, x, 0)
    ensures q == Operations(alu, start, x, 4)
  {
    var a, b, c, d := r.a, r.b, r.c, r.d;
    a := alu.step(alu.f1(b, c, d), a, b, x[0], 0xd76aa478, 7);
    d := alu.step(alu.f1(a, b, c), d, a, x[1], 0xe8c7b756, 12);
    c := alu.step(alu.f1(d, a, b), c, d, x[2], 0x242070db, 17);
    b := alu.step(alu.f1(c, d, a), b, c, x[3], 0xc1bdceee, 22);
    Unroll(alu, start, x, 0);
    q := Registers(a, b, c, d);
  }

  method Steps4to7<W>(alu: Alu<W>, ghost start: Registers<W>, r: Registers<W>, x: seq<W>) returns (q: Registers<W>)
    requires |x| == 16 && alu.table == TableRow && r == Operations(alu, start, x, 4)
    ensures q == Operations(alu, start, x, 8)
  {
    assert TableRow(4) == Row(4, 0xf57c0faf, 7) && TableRow(5) == Row(5, 0x4787c62a, 12);
    assert TableRow(6) == Row(6, 0xa8304613, 17) && TableRow(7) == Row(7, 0xfd469501, 22);
    var a, b, c, d := r.a, r.b, r.c, r.d;
    a := alu.step(alu.f1(b, c, d), a, b, x[4], 0xf57c0faf, 7);
    d := alu.step(alu.f1(a, b, c), d, a, x[5], 0x4787c62a, 12);
    c := alu.step(alu.f1(d, a, b), c, d, x[6], 0xa8304613, 17);
    b := alu.step(alu.f1(c, d, a), b, c, x[7], 0xfd469501, 22);
    Unroll(alu, start, x, 4);
    q := Registers(a, b, c, d);
  }

  method Steps8to11<W>(alu: Alu<W>, ghost start: Registers<W>, r: Registers<W>, x: seq<W>) returns (q: Registers<W>)
    requires |x| == 16 && alu.table == TableRow && r == Operations(alu, start, x, 8)
    ensures q == Operations(alu, start, x, 12)
  {
    assert TableRow(8) == Row(8, 0x698098d8, 7) && TableRow(9) == Row(9, 0x8b44f7af, 12);
    assert TableRow(10) == Row(10, 0xffff5bb1, 17) && TableRow(11) == Row(11, 0x895cd7be, 22);
    var a, b, c, d := r.a, r.b, r.c, r.d;
    a := alu.step(alu.f1(b, c, d), a, b, x[8], 0x698098d8, 7);
    d := alu.step(alu.f1(a, b, c), d, a, x[9], 0x8b44f7af, 12);
    c := alu.step(alu.f1(d, a, b), c, d, x[10], 0xffff5bb1, 17);
    b := alu.step(alu.f1(c, d, a), b, c, x[11], 0x895cd7be, 22);
    Unroll(alu, start, x, 8);
    q := Registers(a, b, c, d);
  }

  method Steps12to15<W>(alu: Alu<W>, ghost start: Registers<W>, r: Registers<W>, x: seq<W>) returns (q: Registers<W>)
    requires |x| == 16 && alu.table == TableRow && r == Operations(alu, start, x, 12)
    ensures q == Operations(alu, start, x, 16)
  {
    assert TableRow(12) == Row(12, 0x6b901122, 7) && TableRow(13) == Row(13, 0xfd987193, 12);
    assert TableRow(14) == Row(14, 0xa679438e, 17) && TableRow(15) == Row(15, 0x49b40821, 22);
    var a, b, c, d := r.a, r.b, r.c, r.d;
    a := alu.step(alu.f1(b, c, d), a, b, x[12], 0x6b901122, 7);
    d := alu.step(alu.f1(a, b, c), d, a, x[13], 0xfd987193, 12);
    c := alu.step(alu.f1(d, a, b), c, d, x[14], 0xa679438e, 17);
    b := alu.step(alu.f1(c, d, a), b, c, x[15], 0x49b40821, 22);
    Unroll(alu, start, x, 12);
    q := Registers(a, b, c, d);
  }

  method Steps16to19<W>(alu: Alu<W>, ghost start: Registers<W>, r: Registers<W>, x: seq<W>) returns (q: Registers<W>)
    requires |x| == 16 && alu.table == TableRow && r == Operations(alu, start, x, 16)
    ensures q == Operations(alu, start, x, 20)
  {
    var a, b, c, d := r.a, r.b, r.c, r.d;
    a := alu.step(alu.f2(b, c, d), a, b, x[1], 0xf61e2562, 5);
    d := alu.step(alu.f2(a, b, c), d, a, x[6], 0xc040b340, 9);
    c := alu.step(alu.f2(d, a, b), c, d, x[11], 0x265e5a51, 14);
    b := alu.step(alu.f2(c, d, a), b, c, x[0], 0xe9b6c7aa, 20);
    Unroll(alu, start, x, 16);
    q := Registers(a, b, c, d);
  }

  method Steps20to23<W>(alu: Alu<W>, ghost start: Registers<W>, r: Registers<W>, x: seq<W>) returns (q: Registers<W>)
    requires |x| == 16 && alu.table == TableRow && r == Operations(alu, start, x, 20)
    ensures q == Operations(alu, start, x, 24)
  {
    var a, b, c, d := r.a, r.b, r.c, r.d;
    a := alu.step(alu.f2(b, c, d), a, b, x[5], 0xd62f105d, 5);
    d := alu.step(alu.f2(a, b, c), d, a, x[10], 0x02441453, 9);
    c := alu.step(alu.f2(d, a, b), c, d, x[15], 0xd8a1e681, 14);
    b := alu.step(alu.f2(c, d, a), b, c, x[4], 0xe7d3fbc8, 20);
    Unroll(alu, start, x, 20);
    q := Registers(a, b, c, d);
  }

  method Steps24to27<W>(alu: Alu<W>, ghost start: Registers<W>, r: Registers<W>, x: seq<W>) returns (q: Registers<W>)
    requires |x| == 16 && alu.table == TableRow && r == Operations(alu, start, x, 24)
    ensures q == Operations(alu, start, x, 28)
  {
    var a, b, c, d := r.a, r.b, r.c, r.d;
    a := alu.step(alu.f2(b, c, d), a, b, x[9], 0x21e1cde6, 5);
    d := alu.step(alu.f2(a, b, c), d, a, x[14], 0xc33707d6, 9);
    c := alu.step(alu.f2(d, a, b), c, d, x[3], 0xf4d50d87, 14);
    b := alu.step(alu.f2(c, d, a), b, c, x[8], 0x455a14ed, 20);
    Unroll(alu, start, x, 24);
    q := Registers(a, b, c, d);
  }

  method Steps28to31<W>(alu: Alu<W>, ghost start: Registers<W>, r: Registers<W>, x: seq<W>) returns (q: Registers<W>)
    requires |x| == 16 && alu.table == TableRow && r == Operations(alu, start, x, 28)
    ensures q == Operations(alu, start, x, 32)
  {
    var a, b, c, d := r.a, r.b, r.c, r.d;
    a := alu.step(alu.f2(b, c, d), a, b, x[13], 0xa9e3e905, 5);
    d := alu.step(alu.f2(a, b, c), d, a, x[2], 0xfcefa3f8, 9);
    c := alu.step(alu.f2(d, a, b), c, d, x[7], 0x676f02d9, 14);
    b := alu.step(alu.f2(c, d, a), b, c, x[12], 0x8d2a4c8a, 20);
    Unroll(alu, start, x, 28);
    q := Registers(a, b, c, d);
  }

  method Steps32to35<W>(alu: Alu<W>, ghost start: Registers<W>, r: Registers<W>, x: seq<W>) returns (q: Registers<W>)
    requires |x| == 16 && alu.table == TableRow && r == Operations(alu, start, x, 32)
    ensures q == Operations(alu, start, x, 36)
  {
    var a, b, c, d := r.a, r.b, r.c, r.d;
    a := alu.step(alu.f3(b, c, d), a, b, x[5], 0xfffa3942, 4);
    d := alu.step(alu.f3(a, b, c), d, a, x[8], 0x8771f681, 11);
    c := alu.step(alu.f3(d, a, b), c, d, x[11], 0x6d9d6122, 16);
    b := alu.step(alu.f3(c, d, a), b, c, x[14], 0xfde5380c, 23);
    Unroll(alu, start, x, 32);
    q := Registers(a, b, c, d);
  }

  method Steps36to39<W>(alu: Alu<W>, ghost start: Registers<W>, r: Registers<W>, x: seq<W>) returns (q: Registers<W>)
    requires |x| == 16 && alu.table == TableRow && r == Operations(alu, start, x, 36)
    ensures q == Operations(alu, start, x, 40)
  {
    var a, b, c, d := r.a, r.b, r.c, r.d;
    a := alu.step(alu.f3(b, c, d), a, b, x[1], 0xa4beea44, 4);
    d := alu.step(alu.f3(a, b, c), d, a, x[4], 0x4bdecfa9, 11);
    c := alu.step(alu.f3(d, a, b), c, d, x[7], 0xf6bb4b60, 16);
    b := alu.step(alu.f3(c, d, a), b, c, x[10], 0xbebfbc70, 23);
    Unroll(alu, start, x, 36);
    q := Registers(a, b, c, d);
  }

  method Steps40to43<W>(alu: Alu<W>, ghost start: Registers<W>, r: Registers<W>, x: seq<W>) returns (q: Registers<W>)
    requires |x| == 16 && alu.table == TableRow && r == Operations(alu, start, x, 40)
    ensures q == Operations(alu, start, x, 44)
  {
    var a, b, c, d := r.a, r.b, r.c, r.d;
    a := alu.step(alu.f3(b, c, d), a, b, x[13], 0x289b7ec6, 4);
    d := alu.step(alu.f3(a, b, c), d, a, x[0], 0xeaa127fa, 11);
    c := alu.step(alu.f3(d, a, b), c, d, x[3], 0xd4ef3085, 16);
    b := alu.step(alu.f3(c, d, a), b, c, x[6], 0x04881d05, 23);
    Unroll(alu, start, x, 40);
    q := Registers(a, b, c, d);
  }

  method Steps44to47<W>(alu: Alu<W>, ghost start: Registers<W>, r: Registers<W>, x: seq<W>) returns (q: Registers<W>)
    requires |x| == 16 && alu.table == TableRow && r == Operations(alu, start, x, 44)
    ensures q == Operations(alu, start, x, 48)
  {
    var a, b, c, d := r.a, r.b, r.c, r.d;
    a := alu.step(alu.f3(b, c, d), a, b, x[9], 0xd9d4d039, 4);
    d := alu.step(alu.f3(a, b, c), d, a, x[12], 0xe6db99e5, 11);
    c := alu.step(alu.f3(d, a, b), c, d, x[15], 0x1fa27cf8, 16);
    b := alu.step(alu.f3(c, d, a), b, c, x[2], 0xc4ac5665, 23);
    Unroll(alu, start, x, 44);
    q := Registers(a, b, c, d);
  }

  method Steps48to51<W>(alu: Alu<W>, ghost start: Registers<W>, r: Registers<W>, x: seq<W>) returns (q: Registers<W>)
    requires |x| == 16 && alu.table == TableRow && r == Operations(alu, start, x, 48)
    ensures q == Operations(alu, start, x, 52)
  {
    var a, b, c, d := r.a, r.b, r.c, r.d;
    a := alu.step(alu.f4(b, c, d), a, b, x[0], 0xf4292244, 6);
    d := alu.step(alu.f4(a, b, c), d, a, x[7], 0x432aff97, 10);
    c := alu.step(alu.f4(d, a, b), c, d, x[14], 0xab9423a7, 15);
    b := alu.step(alu.f4(c, d, a), b, c, x[5], 0xfc93a039, 21);
    Unroll(alu, start, x, 48);
    q := Registers(a, b, c, d);
  }

  method Steps52to55<W>(alu: Alu<W>, ghost start: Registers<W>, r: Registers<W>, x: seq<W>) returns (q: Registers<W>)
    requires |x| == 16 && alu.table == TableRow && r == Operations(alu, start, x, 52)
    ensures q == Operations(alu, start, x, 56)
  {
    var a, b, c, d := r.a, r.b, r.c, r.d;
    a := alu.step(alu.f4(b, c, d), a, b, x[12], 0x655b59c3, 6);
    d := alu.step(alu.f4(a, b, c), d, a, x[3], 0x8f0ccc92, 10);
    c := alu.step(alu.f4(d, a, b), c, d, x[10], 0xffeff47d, 15);
    b := alu.step(alu.f4(c, d, a), b, c, x[1], 0x85845dd1, 21);
    Unroll(alu, start, x, 52);
    q := Registers(a, b, c, d);
  }

  method Steps56to59<W>(alu: Alu<W>, ghost start: Registers<W>, r: Registers<W>, x: seq<W>) returns (q: Registers<W>)
    requires |x| == 16 && alu.table == TableRow && r == Operations(alu, start, x, 56)
    ensures q == Operations(alu, start, x, 60)
  {
    var a, b, c, d := r.a, r.b, r.c, r.d;
    a := alu.step(alu.f4(b, c, d), a, b, x[8], 0x6fa87e4f, 6);
    d := alu.step(alu.f4(a, b, c), d, a, x[15], 0xfe2ce6e0, 10);
    c := alu.step(alu.f4(d, a, b), c, d, x[6], 0xa3014314, 15);
    b := alu.step(alu.f4(c, d, a), b, c, x[13], 0x4e0811a1, 21);
    Unroll(alu, start, x, 56);
    q := Registers(a, b, c, d);
  }

  method Steps60to63<W>(alu: Alu<W>, ghost start: Registers<W>, r: Registers<W>, x: seq<W>) returns (q: Registers<W>)
    requires |x| == 16 && alu.table == TableRow && r == Operations(alu, start, x, 60)
    ensures q == Operations(alu, start, x, 64)
  {
    var a, b, c, d := r.a, r.b, r.c, r.d;
    a := alu.step(alu.f4(b, c, d), a, b, x[4], 0xf7537e82, 6);
    d := alu.step(alu.f4(a, b, c), d, a, x[11], 0xbd3af235, 10);
    c := alu.step(alu.f4(d, a, b), c, d, x[2], 0x2ad7d2bb, 15);
    b := alu.step(alu.f4(c, d, a), b, c, x[9], 0xeb86d391, 21);
    Unroll(alu, start, x, 60);
    q := Registers(a, b, c, d);
  }

  method Unrolled<W>(alu: Alu<W>, r: Registers<W>, x: seq<W>) returns (q: Registers<W>)
    requires |x| == 16 && alu.table == TableRow
    ensures q == Operations(alu, r, x, 64)
  {
    q := Steps0to3(alu, r, r, x);
    q := Steps4to7(alu, r, q, x);
    q := Steps8to11(alu, r, q, x);
    q := Steps12to15(alu, r, q, x);
    q := Steps16to19(alu, r, q, x);
    q := Steps20to23(alu, r, q, x);
    q := Steps24to27(alu, r, q, x);
    q := Steps28to31(alu, r, q, x);
    q := Steps32to35(alu, r, q, x);
    q := Steps36to39(alu, r, q, x);
    q := Steps40to43(alu, r, q, x);
    q := Steps44to47(alu, r, q, x);
    q := Steps48to51(alu, r, q, x);
    q := Steps52to55(alu, r, q, x);
    q := Steps56to59(alu, r, q, x);
    q := Steps60to63(alu, r, q, x);
  }
}
