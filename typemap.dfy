/** `mapsqltype` and `getmd` of sqliteodbc.c: the ODBC SQL type code, the "unsigned" flag,
    and the display size and precision that the driver reports for a column from the type
    name SQLite declares for it. */
module TypeMap {
  import opened CStrings

  // ODBC 2 SQL data type codes (sql.h, sqlext.h)
  const SQL_INTEGER := 4
  const SQL_TINYINT := -6
  const SQL_SMALLINT := 5
  const SQL_FLOAT := 6
  const SQL_DOUBLE := 8
  const SQL_VARCHAR := 12
  const SQL_DATE := 9
  const SQL_TIME := 10
  const SQL_TIMESTAMP := 11
  const SQL_LONGVARCHAR := -1

  /** The integer types, whose "unsigned" is looked for. */
  predicate IsIntegerType(ty: int) {
    ty == SQL_INTEGER || ty == SQL_TINYINT || ty == SQL_SMALLINT
  }

  /** The classification of `mapsqltype` on the lower-cased type name: the first prefix
      that matches decides, and a name matching none of them is VARCHAR. */
  function SqlType(l: string): (ty: int)
    ensures ty in {SQL_INTEGER, SQL_TINYINT, SQL_SMALLINT, SQL_FLOAT, SQL_DOUBLE, SQL_VARCHAR,
                   SQL_DATE, SQL_TIME, SQL_TIMESTAMP, SQL_LONGVARCHAR}
  {
    if IsPrefix("inter", l) then SQL_VARCHAR
    else if IsPrefix("int", l) || IsPrefix("mediumint", l) then SQL_INTEGER
    else if IsPrefix("tinyint", l) then SQL_TINYINT
    else if IsPrefix("smallint", l) then SQL_SMALLINT
    else if IsPrefix("float", l) then SQL_FLOAT
    else if IsPrefix("double", l) || IsPrefix("real", l) then SQL_DOUBLE
    else if IsPrefix("timestamp", l) then SQL_TIMESTAMP
    else if IsPrefix("datetime", l) then SQL_TIMESTAMP
    else if IsPrefix("time", l) then SQL_TIME
    else if IsPrefix("date", l) then SQL_DATE
    else if IsPrefix("text", l) then SQL_LONGVARCHAR
    else SQL_VARCHAR
  }

  /** `*nosign`: for the integer types whether "unsigned" occurs, otherwise 1. */
  function NoSign(l: string): (r: int)
    ensures r == 0 <==> IsIntegerType(SqlType(l)) && !Contains(l, "unsigned")
    ensures r == 0 || r == 1
  {
    if IsIntegerType(SqlType(l)) then (if Contains(l, "unsigned") then 1 else 0) else 1
  }

  /** `mapsqltype` (sqliteodbc.c:377-429): the name is copied and lower-cased in place, then
      classified. */
  method MapSqlType(typename: CString) returns (result: int, nosign: int)
    ensures result == SqlType(Lower(typename))
    ensures nosign == NoSign(Lower(typename))
  {
    var n := |typename|;
    var p := new char[n](k requires 0 <= k < n => typename[k]);
    var q := 0;
    while q < n
      invariant 0 <= q <= n
      invariant forall j :: 0 <= j < q ==> p[j] == ToLower(typename[j])
      invariant forall j :: q <= j < n ==> p[j] == typename[j]
    {
      p[q] := ToLower(p[q]);
      q := q + 1;
    }
    var l := p[..];
    assert l == Lower(typename);
    result := SqlType(l);
    nosign := NoSign(l);
  }

  /** What each code means in terms of the lower-cased name: "int…" and "mediumint…" are
      INTEGER but "inter…" is not, "timestamp…" and "datetime…" are TIMESTAMP before
      "time…" is TIME and "date…" is DATE. */
  lemma SqlTypeMeaning(l: string)
    ensures SqlType(l) == SQL_INTEGER <==>
              (IsPrefix("int", l) && !IsPrefix("inter", l)) || IsPrefix("mediumint", l)
    ensures SqlType(l) == SQL_TINYINT <==> IsPrefix("tinyint", l)
    ensures SqlType(l) == SQL_SMALLINT <==> IsPrefix("smallint", l)
    ensures SqlType(l) == SQL_FLOAT <==> IsPrefix("float", l)
    ensures SqlType(l) == SQL_DOUBLE <==> IsPrefix("double", l) || IsPrefix("real", l)
    ensures SqlType(l) == SQL_TIMESTAMP <==> IsPrefix("timestamp", l) || IsPrefix("datetime", l)
    ensures SqlType(l) == SQL_TIME <==> IsPrefix("time", l) && !IsPrefix("timestamp", l)
    ensures SqlType(l) == SQL_DATE <==> IsPrefix("date", l) && !IsPrefix("datetime", l)
    ensures SqlType(l) == SQL_LONGVARCHAR <==> IsPrefix("text", l)
  {
    if |l| > 0 {
      PrefixChar("inter", l, 0);
      PrefixChar("int", l, 0);
      PrefixChar("mediumint", l, 0);
      PrefixChar("tinyint", l, 0);
      PrefixChar("tinyint", l, 2);
      PrefixChar("smallint", l, 0);
      PrefixChar("float", l, 0);
      PrefixChar("double", l, 0);
      PrefixChar("double", l, 1);
      PrefixChar("real", l, 0);
      PrefixChar("timestamp", l, 0);
      PrefixChar("timestamp", l, 2);
      PrefixChar("datetime", l, 0);
      PrefixChar("datetime", l, 1);
      PrefixChar("time", l, 0);
      PrefixChar("time", l, 1);
      PrefixChar("time", l, 2);
      PrefixChar("date", l, 0);
      PrefixChar("date", l, 1);
      PrefixChar("text", l, 0);
      PrefixChar("text", l, 1);
      PrefixOfPrefix("int", "inter", l);
      PrefixOfPrefix("time", "timestamp", l);
      PrefixOfPrefix("date", "datetime", l);
    }
  }

  /** A name that starts with `p` has `p[k]` at `k`. */
  lemma PrefixChar(p: string, l: string, k: nat)
    ensures IsPrefix(p, l) && k < |p| ==> l[k] == p[k]
  {
    if IsPrefix(p, l) && k < |p| {
      assert l[..|p|][k] == l[k];
    }
  }

  /** A name that starts with `q` starts with every prefix `p` of `q`. */
  lemma PrefixOfPrefix(p: string, q: string, l: string)
    requires IsPrefix(p, q)
    ensures IsPrefix(q, l) ==> IsPrefix(p, l)
  {
    if IsPrefix(q, l) {
      assert l[..|p|] == l[..|q|][..|p|];
    }
  }

  // ---------------------------------------------------------------- getmd

  /** The `switch (sqltype)` of `getmd`: default display size `m` and precision `d`,
      (0, 0) for a type not listed. */
  function SizeDefaults(sqltype: int): (int, int) {
    if sqltype == SQL_INTEGER then (10, 9)
    else if sqltype == SQL_TINYINT then (4, 3)
    else if sqltype == SQL_SMALLINT then (6, 5)
    else if sqltype == SQL_FLOAT then (25, 24)
    else if sqltype == SQL_DOUBLE then (54, 53)
    else if sqltype == SQL_VARCHAR then (255, 0)
    else if sqltype == SQL_DATE then (10, 0)
    else if sqltype == SQL_TIME then (8, 0)
    else if sqltype == SQL_TIMESTAMP then (32, 0)
    else if sqltype == SQL_LONGVARCHAR then (65536, 0)
    else (0, 0)
  }

  /** `%d` at index `p`: the number and the index after it, or None when no digit is there. */
  function ScanInt(t: string, p: nat): (r: Option<(int, nat)>)
    requires p <= |t|
    ensures r.Some? ==> p < r.value.1 <= |t|
  {
    var (n, q) := StrToL(t, p);
    if q == p then None else Some((n, q))
  }

  /** `sscanf(t, "%*[^(](%d)", &mm)` returns 1: a non-empty run without `(`, a `(`, then a
      number. Nothing after the number is needed for the count to be 1. */
  function ScanOne(t: string): Option<int> {
    var k := CharEnd(t, 0, '(');
    if k == 0 || k == |t| then None
    else match ScanInt(t, k + 1)
      case None => None
      case Some((mm, _)) => Some(mm)
  }

  /** `%d,%d` at index `p`. */
  function ScanPair(t: string, p: nat): (r: Option<(int, int)>)
    requires p <= |t|
    ensures r.Some? ==> ScanInt(t, p).Some? && ScanInt(t, p).value.0 == r.value.0
  {
    match ScanInt(t, p)
    case None => None
    case Some((mm, q)) =>
      if q < |t| && t[q] == ',' then
        match ScanInt(t, q + 1)
        case None => None
        case Some((dd, _)) => Some((mm, dd))
      else None
  }

  /** `sscanf(t, "%*[^(](%d,%d)", &mm, &dd)` returns 2. */
  function ScanTwo(t: string): (r: Option<(int, int)>)
    ensures r.Some? ==> ScanOne(t) == Some(r.value.0)
  {
    var k := CharEnd(t, 0, '(');
    if k == 0 || k == |t| then None else ScanPair(t, k + 1)
  }

  /** `getmd` as written (sqliteodbc.c:440-475): `(m, d)`. Because `ScanOne` matches
      whenever `ScanTwo` does, the `(p,s)` branch is never taken. */
  function GetMd(typename: string, sqltype: int): (r: (int, int))
    ensures ScanTwo(typename).Some? && SizeDefaults(sqltype).0 != 0 ==>
              r == (ScanTwo(typename).value.0, ScanTwo(typename).value.0)
  {
    var (m, d) := SizeDefaults(sqltype);
    if m == 0 then (m, d)
    else if ScanOne(typename).Some? then (ScanOne(typename).value, ScanOne(typename).value)
    else match ScanTwo(typename)
      case Some((mm, dd)) => (mm, dd)
      case None => (m, d)
  }

  /** `getmd` with the two-number pattern tried first, so that "(p,s)" sets both. */
  function GetMdCorrected(typename: string, sqltype: int): (int, int) {
    var (m, d) := SizeDefaults(sqltype);
    if m == 0 then (m, d)
    else if ScanTwo(typename).Some? then ScanTwo(typename).value
    else if ScanOne(typename).Some? then (ScanOne(typename).value, ScanOne(typename).value)
    else (m, d)
  }

  /** A name without `(`, or a type `getmd` does not list, keeps the table values. */
  lemma GetMdDefaults(t: string, sqltype: int)
    requires '(' !in t || SizeDefaults(sqltype).0 == 0
    ensures GetMd(t, sqltype) == SizeDefaults(sqltype)
    ensures GetMdCorrected(t, sqltype) == SizeDefaults(sqltype)
  {
    if '(' !in t {
      assert CharEnd(t, 0, '(') == |t|;
    }
  }

  lemma ParenAtFirst(t: string, k: nat)
    requires k < |t| && t[k] == '(' && '(' !in t[..k]
    ensures CharEnd(t, 0, '(') == k
  {
    forall j | 0 <= j < k ensures t[j] != '(' { assert t[j] == t[..k][j]; }
    CharEndAt(t, 0, k, '(');
  }

  /** "name(n)" sets both the display size and the precision to `n`. */
  lemma GetMdOneNumber(name: string, ds: string, sqltype: int)
    requires name != [] && '(' !in name && AllDigits(ds) && ds != []
    requires SizeDefaults(sqltype).0 != 0
    ensures GetMd(name + "(" + ds + ")", sqltype) == (DecimalValue(ds), DecimalValue(ds))
    ensures GetMdCorrected(name + "(" + ds + ")", sqltype) == (DecimalValue(ds), DecimalValue(ds))
  {
    var t := name + "(" + ds + ")";
    var k := |name|;
    assert t[..k] == name && t[k] == '(';
    ParenAtFirst(t, k);
    assert t[k + 1..k + 1 + |ds|] == ds && t[k + 1 + |ds|] == ')';
    StrToLOfRun(t, k + 1, ds);
  }

  /** Where the pieces of `name + "(" + a + "," + b + ")"` lie. */
  lemma PairPieces(t: string, name: string, a: string, b: string)
    requires t == name + "(" + a + "," + b + ")"
    ensures |t| == |name| + |a| + |b| + 3
    ensures t[..|name|] == name && t[|name|] == '('
    ensures t[|name| + 1..|name| + 1 + |a|] == a && t[|name| + 1 + |a|] == ','
    ensures t[|name| + |a| + 2..|name| + |a| + 2 + |b|] == b && t[|name| + |a| + 2 + |b|] == ')'
  {
    assert t == name + ("(" + a + "," + b + ")");
    assert t == (name + "(") + a + ("," + b + ")");
    assert t == (name + "(" + a + ",") + b + ")";
  }

  /** The corrected `getmd`: "name(p,s)" gives display size `p` and precision `s`. */
  lemma GetMdTwoNumbers(name: string, a: string, b: string, sqltype: int)
    requires name != [] && '(' !in name && AllDigits(a) && a != [] && AllDigits(b) && b != []
    requires SizeDefaults(sqltype).0 != 0
    ensures GetMdCorrected(name + "(" + a + "," + b + ")", sqltype) == (DecimalValue(a), DecimalValue(b))
  {
    var t := name + "(" + a + "," + b + ")";
    PairPieces(t, name, a, b);
    TwoNumbersAt(t, |name|, a, b);
  }

  lemma TwoNumbersAt(t: string, k: nat, a: string, b: string)
    requires k + |a| + |b| + 3 == |t| && k > 0
    requires t[k] == '(' && '(' !in t[..k]
    requires t[k + 1..k + 1 + |a|] == a && t[k + 1 + |a|] == ','
    requires t[k + |a| + 2..k + |a| + 2 + |b|] == b && t[k + |a| + 2 + |b|] == ')'
    requires AllDigits(a) && a != [] && AllDigits(b) && b != []
    ensures ScanTwo(t) == Some((DecimalValue(a), DecimalValue(b)))
  {
    PairAt(t, k + 1, a, b);
    ParenAtFirst(t, k);
  }

  /** "a,b)" at `p` scans as the pair of their values. */
  lemma PairAt(t: string, p: nat, a: string, b: string)
    requires p + |a| + |b| + 2 == |t|
    requires t[p..p + |a|] == a && t[p + |a|] == ','
    requires t[p + |a| + 1..p + |a| + 1 + |b|] == b && t[p + |a| + 1 + |b|] == ')'
    requires AllDigits(a) && a != [] && AllDigits(b) && b != []
    ensures ScanPair(t, p) == Some((DecimalValue(a), DecimalValue(b)))
  {
    var q := p + |a|;
    IntAt(t, q + 1, b);
    IntAt(t, p, a);
  }

  lemma IntAt(t: string, p: nat, ds: string)
    requires p + |ds| < |t| && t[p..p + |ds|] == ds && !IsDigit(t[p + |ds|])
    requires AllDigits(ds) && ds != []
    ensures ScanInt(t, p) == Some((DecimalValue(ds), p + |ds|))
  {
    StrToLOfRun(t, p, ds);
  }

  /** "name(p,s)" as written: the one-number pattern matches first, so both come out as `p`. */
  lemma GetMdPairAsWritten(name: string, a: string, b: string, sqltype: int)
    requires name != [] && '(' !in name && AllDigits(a) && a != [] && AllDigits(b) && b != []
    requires SizeDefaults(sqltype).0 != 0
    ensures GetMd(name + "(" + a + "," + b + ")", sqltype) == (DecimalValue(a), DecimalValue(a))
  {
    var t := name + "(" + a + "," + b + ")";
    PairPieces(t, name, a, b);
    TwoNumbersAt(t, |name|, a, b);
  }

  lemma DecimalValues()
    ensures DecimalValue("10") == 10 && DecimalValue("2") == 2
  {
    assert "10"[..1] == "1" && "1"[..0] == [] && "2"[..0] == [];
  }

  /** A lower-case name starting "de" but not "date" is VARCHAR. */
  lemma DecimalIsVarchar(t: string)
    requires |t| >= 4 && t[0] == 'd' && t[1] == 'e'
    ensures SqlType(t) == SQL_VARCHAR
  {
    assert !IsPrefix("date", t) by { assert t[..4][1] == 'e'; }
    assert !IsPrefix("double", t) by { if |t| >= 6 { assert t[..6][1] == 'e'; } }
    assert !IsPrefix("datetime", t) by { if |t| >= 8 { assert t[..8][1] == 'e'; } }
    assert !IsPrefix("inter", t) && !IsPrefix("int", t) && !IsPrefix("mediumint", t) by {
      if |t| >= 3 { assert t[..3][0] == 'd'; }
      if |t| >= 9 { assert t[..9][0] == 'd'; }
    }
    assert !IsPrefix("tinyint", t) && !IsPrefix("smallint", t) && !IsPrefix("float", t) by {
      if |t| >= 5 { assert t[..5][0] == 'd'; }
      if |t| >= 7 { assert t[..7][0] == 'd'; }
      if |t| >= 8 { assert t[..8][0] == 'd'; }
    }
    assert !IsPrefix("real", t) && !IsPrefix("timestamp", t) && !IsPrefix("time", t) && !IsPrefix("text", t) by {
      assert t[..4][0] == 'd';
      if |t| >= 9 { assert t[..9][0] == 'd'; }
    }
  }

  /** "decimal(10,2)" as written: `mapsqltype` knows no "decimal" prefix and reports the
      column as VARCHAR, and `getmd` then gives it precision 10 instead of 2. */
  lemma DecimalPairAsWritten()
    ensures var t := "decimal" + "(" + "10" + "," + "2" + ")";
      SqlType(t) == SQL_VARCHAR &&
      GetMd(t, SQL_VARCHAR) == (10, 10) && GetMdCorrected(t, SQL_VARCHAR) == (10, 2)
  {
    DecimalIsVarchar("decimal" + "(" + "10" + "," + "2" + ")");
    DecimalValues();
    GetMdPairAsWritten("decimal", "10", "2", SQL_VARCHAR);
    GetMdTwoNumbers("decimal", "10", "2", SQL_VARCHAR);
  }
}
