/** `SQLGetFunctions` of sqliteodbc.c: the table of ODBC API functions the driver
    implements, and the three ways it is reported (one function, the ODBC 2 array of 100
    flags, the ODBC 3 bitmap). Function identifiers are the SQL_API_* values of the ODBC
    headers. */
module Functions {
  import opened OdbcCodes

  const SQL_API_ALL_FUNCTIONS := 0
  const SQL_API_ODBC3_ALL_FUNCTIONS := 999
  /** Words in the ODBC 3 bitmap: one bit for each of 4000 identifiers. */
  const SQL_API_ODBC3_ALL_FUNCTIONS_SIZE := 250
  /** Entries in the driver's `exists` table. */
  const TableSize := 100

  /** The `exists` table (sqliteodbc.c:3324-3383): SQL_API_SQLALLOCCONNECT (1) to
      SQL_API_SQLTRANSACT (23), SQL_API_SQLCOLUMNS (40) to SQL_API_SQLTABLES (54), and
      DATASOURCES, DESCRIBEPARAM, EXTENDEDFETCH, FOREIGNKEYS, MORERESULTS, NUMPARAMS,
      PRIMARYKEYS, SETPOS, SETSCROLLOPTIONS and BINDPARAMETER. */
  predicate Exists(id: int) {
    1 <= id <= 23 || 40 <= id <= 54 || id in {57, 58, 59, 60, 61, 63, 65, 68, 69, 72}
  }

  /** The flag for one identifier, 0 past the table. */
  function Flag(id: nat): (f: bv16)
    ensures f == 1 <==> id < TableSize && Exists(id)
    ensures f == 0 || f == 1
  {
    if id < TableSize && Exists(id) then 1 else 0
  }

  /** Bit `b` of `x`. */
  predicate BitOf(x: bv16, b: bv4) {
    (x >> b) & 1 == 1
  }

  /** SQL_FUNC_EXISTS: bit `id % 16` of word `id / 16`. */
  predicate FuncExists(pf: seq<bv16>, id: nat)
    requires id / 16 < |pf|
  {
    BitOf(pf[id / 16], (id % 16) as bv4)
  }

  /** Word `x` with bit `b` set or cleared. */
  function SetBit(x: bv16, b: bv4, v: bool): (r: bv16) {
    if v then x | (1 << b) else x & !(1 << b)
  }

  /** Setting one bit leaves the other fifteen as they were. */
  lemma SetBitOnly(x: bv16, b: bv4, v: bool, c: bv4)
    ensures BitOf(SetBit(x, b, v), c) == if c == b then v else BitOf(x, c)
  {
  }

  /** Bit positions below 16 are told apart by their four-bit form. */
  lemma PositionsDistinct(i: nat, j: nat)
    requires i < 16 && j < 16 && i as bv4 == j as bv4
    ensures i == j
  {
    assert (i as bv4) as int == i && (j as bv4) as int == j;
  }

  /** The ODBC 3 loop over the first `n` identifiers applied to the caller's words `pf`:
      bit i is set when function i exists and cleared otherwise. */
  function Bitmap(pf: seq<bv16>, n: nat): (r: seq<bv16>)
    requires n <= 16 * |pf|
    ensures |r| == |pf|
  {
    if n == 0 then pf
    else
      var p := Bitmap(pf, n - 1);
      var w := (n - 1) / 16;
      p[w := SetBit(p[w], ((n - 1) % 16) as bv4, Flag(n - 1) == 1)]
  }

  /** The loop reports exactly the identifiers below `n` and leaves every later bit as
      the caller had it. */
  lemma {:induction false} BitmapBits(pf: seq<bv16>, n: nat, id: nat)
    requires n <= 16 * |pf| && id < 16 * |pf|
    ensures FuncExists(Bitmap(pf, n), id) == if id < n then Flag(id) == 1 else FuncExists(pf, id)
  {
    if n > 0 {
      BitmapBits(pf, n - 1, id);
      var p := Bitmap(pf, n - 1);
      var w := (n - 1) / 16;
      SetBitOnly(p[w], ((n - 1) % 16) as bv4, Flag(n - 1) == 1, (id % 16) as bv4);
      if id / 16 == w && (id % 16) as bv4 == ((n - 1) % 16) as bv4 {
        PositionsDistinct(id % 16, (n - 1) % 16);
        assert id == n - 1;
      }
    }
  }

  /** The ODBC 3 loop over `n` identifiers on the caller's array `flags`. */
  method FillBitmap(flags: array<bv16>, n: nat)
    requires n <= 16 * flags.Length
    modifies flags
    ensures flags[..] == Bitmap(old(flags[..]), n)
  {
    for i := 0 to n
      invariant flags[..] == Bitmap(old(flags[..]), i)
    {
      var w := i / 16;
      flags[w] := SetBit(flags[w], (i % 16) as bv4, Flag(i) == 1);
    }
  }

  /** The array `flags` must hold what the caller is required to provide: 100 words for
      SQL_API_ALL_FUNCTIONS, 250 for SQL_API_ODBC3_ALL_FUNCTIONS, one otherwise. */
  predicate FlagsFit(func: nat, len: nat) {
    if func == SQL_API_ALL_FUNCTIONS then len >= TableSize
    else if func == SQL_API_ODBC3_ALL_FUNCTIONS then len >= SQL_API_ODBC3_ALL_FUNCTIONS_SIZE
    else len >= 1
  }

  /** The ODBC 2 answer for SQL_API_ALL_FUNCTIONS: `memcpy` of the table. */
  method CopyTable(flags: array<bv16>)
    requires flags.Length >= TableSize
    modifies flags
    ensures forall i :: 0 <= i < TableSize ==> flags[i] == Flag(i)
    ensures forall i :: TableSize <= i < flags.Length ==> flags[i] == old(flags[i])
  {
    forall i | 0 <= i < TableSize {
      flags[i] := Flag(i);
    }
  }

  /** `SQLGetFunctions` as written (sqliteodbc.c:3311-3402): the ODBC 3 loop runs over
      SQL_API_ODBC3_ALL_FUNCTIONS_SIZE identifiers, the number of words, not of bits. */
  method GetFunctionsAsWritten(dbcNull: bool, func: nat, flags: array<bv16>) returns (rc: int)
    requires FlagsFit(func, flags.Length)
    modifies flags
    ensures dbcNull ==> rc == SQL_INVALID_HANDLE && flags[..] == old(flags[..])
    ensures !dbcNull ==> rc == SQL_SUCCESS
    ensures !dbcNull && func == SQL_API_ALL_FUNCTIONS ==>
              forall i :: 0 <= i < TableSize ==> flags[i] == Flag(i)
    ensures !dbcNull && func == SQL_API_ODBC3_ALL_FUNCTIONS ==>
              flags[..] == Bitmap(old(flags[..]), SQL_API_ODBC3_ALL_FUNCTIONS_SIZE)
    ensures !dbcNull && func != SQL_API_ALL_FUNCTIONS && func != SQL_API_ODBC3_ALL_FUNCTIONS ==>
              flags[0] == Flag(func)
  {
    if dbcNull {
      return SQL_INVALID_HANDLE;
    }
    if func == SQL_API_ALL_FUNCTIONS {
      CopyTable(flags);
    } else if func == SQL_API_ODBC3_ALL_FUNCTIONS {
      FillBitmap(flags, SQL_API_ODBC3_ALL_FUNCTIONS_SIZE);
    } else {
      flags[0] := Flag(func);
    }
    rc := SQL_SUCCESS;
  }

  /** As written, the bits of identifiers 250 to 3999 keep whatever the caller left in
      them, so the answer for SQLFetchScroll (1021) depends on the caller's memory: yes on
      an array of all ones, no on an array of zeros. With the loop over all 4000 bits the
      answer is the `exists` table's, which lists no ODBC 3 identifier and so says no for
      1021 as well, although the driver defines SQLFetchScroll. */
  lemma UnwrittenBitsAsWritten()
    ensures var ones := seq(SQL_API_ODBC3_ALL_FUNCTIONS_SIZE, _ => 0xFFFF as bv16);
            var zeros := seq(SQL_API_ODBC3_ALL_FUNCTIONS_SIZE, _ => 0 as bv16);
            FuncExists(Bitmap(ones, SQL_API_ODBC3_ALL_FUNCTIONS_SIZE), 1021) &&
            !FuncExists(Bitmap(zeros, SQL_API_ODBC3_ALL_FUNCTIONS_SIZE), 1021)
    ensures var ones := seq(SQL_API_ODBC3_ALL_FUNCTIONS_SIZE, _ => 0xFFFF as bv16);
            Flag(1021) == 0 && !FuncExists(Bitmap(ones, 16 * SQL_API_ODBC3_ALL_FUNCTIONS_SIZE), 1021)
  {
    var ones := seq(SQL_API_ODBC3_ALL_FUNCTIONS_SIZE, _ => 0xFFFF as bv16);
    var zeros := seq(SQL_API_ODBC3_ALL_FUNCTIONS_SIZE, _ => 0 as bv16);
    BitmapBits(ones, SQL_API_ODBC3_ALL_FUNCTIONS_SIZE, 1021);
    BitmapBits(zeros, SQL_API_ODBC3_ALL_FUNCTIONS_SIZE, 1021);
    BitmapBits(ones, 16 * SQL_API_ODBC3_ALL_FUNCTIONS_SIZE, 1021);
    assert ones[1021 / 16] == 0xFFFF;
    assert zeros[1021 / 16] == 0;
  }

  /** `SQLGetFunctions` with the ODBC 3 loop over every bit of the 250 words. */
  method GetFunctions(dbcNull: bool, func: nat, flags: array<bv16>) returns (rc: int)
    requires FlagsFit(func, flags.Length)
    modifies flags
    ensures dbcNull ==> rc == SQL_INVALID_HANDLE && flags[..] == old(flags[..])
    ensures !dbcNull ==> rc == SQL_SUCCESS
    ensures !dbcNull && func == SQL_API_ALL_FUNCTIONS ==>
              forall i :: 0 <= i < TableSize ==> flags[i] == Flag(i)
    ensures !dbcNull && func == SQL_API_ODBC3_ALL_FUNCTIONS ==>
              flags[..] == Bitmap(old(flags[..]), 16 * SQL_API_ODBC3_ALL_FUNCTIONS_SIZE)
    ensures !dbcNull && func != SQL_API_ALL_FUNCTIONS && func != SQL_API_ODBC3_ALL_FUNCTIONS ==>
              flags[0] == Flag(func)
  {
    if dbcNull {
      return SQL_INVALID_HANDLE;
    }
    if func == SQL_API_ALL_FUNCTIONS {
      CopyTable(flags);
    } else if func == SQL_API_ODBC3_ALL_FUNCTIONS {
      FillBitmap(flags, 16 * SQL_API_ODBC3_ALL_FUNCTIONS_SIZE);
    } else {
      flags[0] := Flag(func);
    }
    rc := SQL_SUCCESS;
  }

  /** With the full loop the ODBC 3 bitmap agrees with the one-function answer for every
      identifier, whatever the caller's array held. */
  lemma BitmapAgreesWithFlag(pf: seq<bv16>, id: nat)
    requires |pf| == SQL_API_ODBC3_ALL_FUNCTIONS_SIZE && id < 16 * SQL_API_ODBC3_ALL_FUNCTIONS_SIZE
    ensures FuncExists(Bitmap(pf, 16 * SQL_API_ODBC3_ALL_FUNCTIONS_SIZE), id) <==> Flag(id) == 1
  {
    BitmapBits(pf, 16 * SQL_API_ODBC3_ALL_FUNCTIONS_SIZE, id);
  }
}
