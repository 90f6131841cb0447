/** The lookup tables of the field and the table-driven field operations.

    `gentables.go` generates the tables from the log table; `galois.go` multiplies, divides and
    exponentiates with them.  Each operation is proved to be the corresponding operation of
    `Galois`, and each generator to fill every entry of its table. */
module GaloisTables {
  import opened Bytes
  import opened Galois

  // ---- operations of galois.go ----

  // expTable[k]; the table has 510 entries, so the sum of two logs is always an index
  function ExpTable(k: nat): byte
    requires k < 510
  {
    Exp(k)
  }

  // The log/exp form of galMultiply.
  function GalMultiply(a: byte, b: byte): (r: byte)
    ensures r == Mul(a, b)
  {
    if a == 0 || b == 0 then
      MulZero(a); MulZero(b); 0
    else
      ExpOfLog(a); ExpOfLog(b); MulExp(Log(a), Log(b));
      ExpTable(Log(a) + Log(b))
  }

  // Division; the code panics on a zero divisor unless the dividend is zero.
  method GalDivide(a: byte, b: byte) returns (r: byte)
    requires a == 0 || b != 0
    ensures Mul(r, b) == a || (a == 0 && r == 0)
    ensures r == Mul(a, Inv(b))
  {
    hide Mul, Exp, Log;
    MulZero(b);
    MulZero(Inv(b));
    if a == 0 {
      return 0;
    }
    ExpOfLog(a);
    ExpOfLog(b);
    MulInv(b);
    var logResult: int := Log(a) - Log(b);
    if logResult < 0 {
      logResult := logResult + 255;
    }
    r := ExpTable(logResult);
    MulExp(logResult, Log(b));
    if logResult + Log(b) != Log(a) {
      ExpPeriod(Log(a));
    }
    MulAssoc(r, b, Inv(b));
    MulOne(r);
  }

  // a multiplied by itself n times; in particular 1 for n = 0, even for a = 0.
  function Pow(a: byte, n: nat): byte {
    if n == 0 then 1 else Mul(a, Pow(a, n - 1))
  }

  // A power of a power of the generator.
  lemma {:induction false} PowOfExp(a: byte, l: nat, n: nat)
    requires Exp(l) == a
    ensures Pow(a, n) == Exp(l * n)
    decreases n
  {
    hide Mul, Exp;
    if n == 0 {
      ExpOne();
    } else {
      PowOfExp(a, l, n - 1);
      MulExp(l, l * (n - 1));
      assert l + l * (n - 1) == l * n;
    }
  }

  method GalExp(a: byte, n: nat) returns (r: byte)
    ensures r == Pow(a, n)
  {
    hide Mul, Exp, Log;
    if n == 0 {
      return 1;
    }
    if a == 0 {
      MulZero(Pow(a, n - 1));
      return 0;
    }
    var logResult := Log(a) * n;
    while logResult >= 255
      invariant logResult >= 0
      invariant Exp(logResult) == Exp(Log(a) * n)
    {
      ExpPeriod(logResult - 255);
      logResult := logResult - 255;
    }
    ExpOfLog(a);
    PowOfExp(a, Log(a), n);
    r := ExpTable(logResult);
  }

  // ---- nibble tables ----

  // mulTableLow[c][n] and mulTableHigh[c][n] for n < 16
  function Low(c: byte, n: byte): byte { Mul(c, n) }
  function High(c: byte, n: byte): byte { Mul(c, n << 4) }

  // What the assembly kernels compute per byte is the full product.
  lemma NibbleLookup(c: byte, x: byte)
    ensures Add(Low(c, x & 0x0f), High(c, x >> 4)) == Mul(c, x)
  {
    hide Mul, Add;
    assert (x >> 4) << 4 == x & 0xf0;
    MulNibbles(c, x);
  }

  // ---- generators of gentables.go ----

  // byte(i)
  function ByteOf(i: int): byte
    requires 0 <= i < 256
  {
    i as byte
  }

  lemma ByteOfIntOf(b: byte)
    ensures ByteOf(IntOf(b)) == b
  {
    BackToByte(b);
  }

  lemma IntOfByteOf(i: int)
    requires 0 <= i < 256
    ensures IntOf(ByteOf(i)) == i
    ensures i != 0 ==> ByteOf(i) != 0
  {
    BackToInt(i);
    assert IntOf(0) == 0;
  }

  method GenerateExpTable() returns (table: array<byte>)
    ensures fresh(table) && table.Length == 510
    ensures forall k :: 0 <= k < 510 ==> table[k] == Exp(k)
  {
    hide *;
    table := new byte[510];
    for i := 1 to 256
      invariant forall j :: 1 <= j < i ==> Log(ByteOf(j)) < 255
      invariant forall j :: 1 <= j < i ==> table[Log(ByteOf(j))] == ByteOf(j) == table[Log(ByteOf(j)) + 255]
    {
      IntOfByteOf(i);
      ExpOfLog(ByteOf(i));
      var log := Log(ByteOf(i));
      table[log] := ByteOf(i);
      table[log + 255] := ByteOf(i);
      forall j | 1 <= j < i
        ensures Log(ByteOf(j)) != log
      {
        IntOfByteOf(j);
        ExpOfLog(ByteOf(j));
      }
    }
    forall k | 0 <= k < 510
      ensures table[k] == Exp(k)
    {
      var m := if k < 255 then k else k - 255;
      ExpPeriod(m);
      ExpNonZero(m);
      LogOfExp(m);
      ByteOfIntOf(Exp(m));
      ZeroByte();
      assert ByteOf(IntOf(Exp(m))) == Exp(m);
    }
  }

  lemma ZeroByte()
    ensures ByteOf(0) == 0
  {}

  // The flat table: entry v is the product of v's low byte and v's high byte.
  method GenerateMulTable(expTable: array<byte>) returns (table: array<byte>)
    requires expTable.Length == 510
    requires forall k :: 0 <= k < 510 ==> expTable[k] == Exp(k)
    ensures fresh(table) && table.Length == 65536
    ensures forall a, b :: 0 <= a < 256 && 0 <= b < 256 ==> table[256 * b + a] == Mul(ByteOf(a), ByteOf(b))
  {
    hide *;
    table := new byte[65536];
    for v := 0 to 65536
      invariant forall k :: 0 <= k < 510 ==> expTable[k] == Exp(k)
      invariant forall u :: 0 <= u < v ==> table[u] == Entry(u)
    {
      var product := TableProduct(expTable, v % 256, v / 256);
      EntryIs(v);
      table[v] := product;
    }
    forall a, b | 0 <= a < 256 && 0 <= b < 256
      ensures table[256 * b + a] == Mul(ByteOf(a), ByteOf(b))
    {
      assert (256 * b + a) % 256 == a && (256 * b + a) / 256 == b;
      EntryIs(256 * b + a);
    }
  }

  function Entry(v: int): byte
    requires 0 <= v < 65536
  {
    Mul(ByteOf(v % 256), ByteOf(v / 256))
  }

  lemma EntryIs(v: int)
    requires 0 <= v < 65536
    ensures Entry(v) == Mul(ByteOf(v % 256), ByteOf(v / 256))
  {}

  // One entry: the sum of the logs, looked up in the exp table.
  method TableProduct(expTable: array<byte>, a: int, b: int) returns (result: byte)
    requires expTable.Length == 510
    requires forall k :: 0 <= k < 510 ==> expTable[k] == Exp(k)
    requires 0 <= a < 256 && 0 <= b < 256
    ensures result == Mul(ByteOf(a), ByteOf(b))
  {
    hide *;
    result := 0;
    if !(a == 0 || b == 0) {
      IntOfByteOf(a);
      IntOfByteOf(b);
      ExpOfLog(ByteOf(a));
      ExpOfLog(ByteOf(b));
      MulExp(Log(ByteOf(a)), Log(ByteOf(b)));
      result := expTable[Log(ByteOf(a)) + Log(ByteOf(b))];
    } else {
      ZeroByte();
      MulZero(ByteOf(a));
      MulZero(ByteOf(b));
    }
  }

  ghost predicate HalfRow(low: array2<byte>, high: array2<byte>, a: int, upto: int)
    requires 0 <= a < 256 && low.Length0 == high.Length0 == 256 && low.Length1 == high.Length1 == 16
    reads low, high
  {
    forall n :: 0 <= n < 16 ==>
      (n < upto ==> low[a, n] == Low(ByteOf(a), ByteOf(n))) &&
      (16 * n < upto ==> high[a, n] == High(ByteOf(a), ByteOf(n)))
  }

  // Split tables: low holds the products with 0..15, high those with multiples of 16.
  method GenerateMulTableHalf(expTable: array<byte>) returns (low: array2<byte>, high: array2<byte>)
    requires expTable.Length == 510
    requires forall k :: 0 <= k < 510 ==> expTable[k] == Exp(k)
    ensures fresh(low) && fresh(high)
    ensures low.Length0 == high.Length0 == 256 && low.Length1 == high.Length1 == 16
    ensures forall a :: 0 <= a < 256 ==> HalfRow(low, high, a, 256)
  {
    hide *;
    low, high := new byte[256, 16], new byte[256, 16];
    for a := 0 to 256
      invariant forall k :: 0 <= k < 510 ==> expTable[k] == Exp(k)
      invariant forall a' :: 0 <= a' < a ==> HalfRow(low, high, a', 256)
    {
      FillHalfRow(expTable, a, low, high);
    }
  }

  // The inner loop of generateMulTableHalf.
  method FillHalfRow(expTable: array<byte>, a: int, low: array2<byte>, high: array2<byte>)
    requires expTable.Length == 510
    requires forall k :: 0 <= k < 510 ==> expTable[k] == Exp(k)
    requires 0 <= a < 256 && low.Length0 == high.Length0 == 256 && low.Length1 == high.Length1 == 16 && low != high
    requires expTable as object != low && expTable as object != high
    modifies low, high
    ensures HalfRow(low, high, a, 256)
    ensures forall a' :: 0 <= a' < 256 && a' != a && old(HalfRow(low, high, a', 256)) ==> HalfRow(low, high, a', 256)
  {
    hide Log, Exp, Mul, Low, High, ByteOf;
    for b := 0 to 256
      invariant forall k :: 0 <= k < 510 ==> expTable[k] == Exp(k)
      invariant HalfRow(low, high, a, b)
      invariant forall a', n :: 0 <= a' < 256 && a' != a && 0 <= n < 16 ==>
        low[a', n] == old(low[a', n]) && high[a', n] == old(high[a', n])
    {
      var result := TableProduct(expTable, a, b);
      if b < 16 {                 // (b & 0xf) == b
        LowIs(ByteOf(a), b);
        low[a, b] := result;
      }
      if b % 16 == 0 {            // (b & 0xf0) == b
        HighIs(ByteOf(a), b / 16);
        high[a, b / 16] := result;
      }
    }
  }

  lemma LowIs(c: byte, n: int)
    requires 0 <= n < 16
    ensures Low(c, ByteOf(n)) == Mul(c, ByteOf(n))
  {}

  lemma HighIs(c: byte, n: int)
    requires 0 <= n < 16
    ensures High(c, ByteOf(n)) == Mul(c, ByteOf(16 * n))
  {
    hide Mul;
    assert (n as byte) << 4 == (16 * n) as byte;
  }
}
