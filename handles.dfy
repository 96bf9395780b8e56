/** The handle objects of sqliteodbc.c and the driver functions that update them in
    place: the environment (ENV) with its list of connections, the connection (DBC)
    with its transaction flags and its list of statements, and the statement (STMT)
    with its parameter bindings, column bindings, result cursor and cursor name.
    Pointers to application buffers are modelled by whether they are NULL. */
module Handles {
  import opened CStrings
  import opened OdbcCodes
  import opened Cursor
  import opened Transactions

  /** One BINDPARM slot; the two pointers are kept as opaque numbers (0 for NULL). */
  datatype BindParm = BindParm(ctype: int, stype: int, max: int, lenp: int, param: int)

  /** A slot cleared by `memset`. */
  const NoParm := BindParm(0, 0, 0, 0, 0)

  /** One BINDCOL slot: C type, buffer length, whether `lenp`/`valp` are set, and the
      offset `SQLGetData` has reached in the current value. */
  datatype BindCol = BindCol(ctype: int, max: int, hasLenp: bool, hasValp: bool, index: int, offs: int)

  function Zeroed(n: nat): seq<BindParm> {
    seq(n, _ => NoParm)
  }

  /** The parameter slots after `drvbindparam(pnum, p)` succeeds on slots `ps`
      (`hasSlots` is false while `bindparms` is NULL): the first bind makes
      max(10, pnum) cleared slots, a later bind past the end grows the slots to exactly
      `pnum`, and only slot `pnum - 1` receives `p`. */
  function Bound(ps: seq<BindParm>, hasSlots: bool, pnum: nat, p: BindParm): (r: seq<BindParm>)
    requires pnum >= 1
    ensures |r| == if hasSlots then Max(|ps|, pnum) else Max(10, pnum)
    ensures r[pnum - 1] == p
    ensures hasSlots ==> forall i :: 0 <= i < |ps| && i != pnum - 1 ==> r[i] == ps[i]
    ensures forall i :: (if hasSlots then |ps| else 0) <= i < |r| && i != pnum - 1 ==> r[i] == NoParm
  {
    Slots(ps, hasSlots, pnum)[pnum - 1 := p]
  }

  /** The slots `drvbindparam(pnum, _)` stores into: `max(10, pnum)` cleared ones while
      `bindparms` is NULL, `ps` grown with cleared slots to `pnum` when it is shorter. */
  function Slots(ps: seq<BindParm>, hasSlots: bool, pnum: nat): (r: seq<BindParm>)
    requires pnum >= 1
    ensures |r| == if hasSlots then Max(|ps|, pnum) else Max(10, pnum)
  {
    if !hasSlots then Zeroed(Max(10, pnum))
    else if pnum > |ps| then ps + Zeroed(pnum - |ps|)
    else ps
  }

  /** A bound column that `getrowdata` cannot fill: it has a buffer or a length pointer
      and a C type outside the converted ones. */
  predicate Fails(b: BindCol) {
    (b.hasValp || b.hasLenp) && !ConvertibleCType(b.ctype)
  }

  /** The first column from `i` on whose fetch fails, or |cols|. */
  function FirstFailing(cols: seq<BindCol>, i: nat): (k: nat)
    requires i <= |cols|
    ensures i <= k <= |cols|
    ensures forall j :: i <= j < k ==> !Fails(cols[j])
    ensures k < |cols| ==> Fails(cols[k])
    decreases |cols| - i
  {
    if i == |cols| || Fails(cols[i]) then i else FirstFailing(cols, i + 1)
  }

  /** The columns with the offsets of the first `n` reset to 0. */
  function ResetOffsets(cols: seq<BindCol>, n: nat): (r: seq<BindCol>)
    ensures |r| == |cols|
    ensures forall i :: 0 <= i < |cols| ==> r[i] == if i < n then cols[i].(offs := 0) else cols[i]
  {
    seq(|cols|, i requires 0 <= i < |cols| => if i < n then cols[i].(offs := 0) else cols[i])
  }

  /** As written, a fetch whose first bound column cannot be filled (a column bound with
      SQL_C_DEFAULT keeps its SQL type, 12 for VARCHAR, which `getrowdata` does not
      convert) stops before the second column, whose offset stays where `SQLGetData`
      left it; the corrected fetch clears every offset. */
  lemma StaleOffsetSurvivesAsWritten(off: nat)
    ensures var cols := [BindCol(12, 0, true, true, 0, 0), BindCol(SQL_C_CHAR, 2, true, true, 1, off)];
            var k := FirstFailing(cols, 0);
            k == 0 && ResetOffsets(cols, Min(k + 1, |cols|))[1].offs == off &&
            ResetOffsets(cols, |cols|)[1].offs == 0
  {
    var cols := [BindCol(12, 0, true, true, 0, 0), BindCol(SQL_C_CHAR, 2, true, true, 1, off)];
    assert Fails(cols[0]);
  }

  /** The name `drvsetcursorname` stores: at most 31 characters of `cursor`. A negative
      `len` other than SQL_NTS also gives 31, because `min` compares it with the unsigned
      `sizeof (s->cursorname) - 1`. */
  function CursorName(cursor: string, len: int): (r: string)
    ensures |r| <= 31 && IsPrefix(r, cursor)
    ensures |r| == |cursor| || |r| == 31 || |r| == len
    ensures len < 0 || len >= 31 ==> |r| == Min(31, |cursor|)
  {
    var n := if len < 0 then 31 else Min(31, len);
    cursor[..Min(n, |cursor|)]
  }

  predicate LetterFirst(cursor: string) {
    |cursor| > 0 && ('A' <= cursor[0] <= 'Z' || 'a' <= cursor[0] <= 'z')
  }

  /** Upper-case hexadecimal digits of `n`, most significant first. */
  function Hex(n: nat): (r: string)
    ensures 1 <= |r|
    decreases n
  {
    var d := "0123456789ABCDEF"[n % 16];
    if n < 16 then [d] else Hex(n / 16) + [d]
  }

  lemma {:induction false} HexLength(n: nat, k: nat)
    requires 1 <= k && n < Pow16(k)
    ensures |Hex(n)| <= k
    decreases n
  {
    if n >= 16 {
      assert Pow16(k) == 16 * Pow16(k - 1);
      assert n / 16 < Pow16(k - 1);
      assert k != 1;
      HexLength(n / 16, k - 1);
    }
  }

  function Pow16(k: nat): nat {
    if k == 0 then 1 else 16 * Pow16(k - 1)
  }

  /** `sprintf(s->cursorname, "CUR_%08lX", handle)`: at least eight digits. */
  function DefaultCursorName(handle: nat): (r: string)
    requires handle < Pow16(16)
    ensures 4 <= |r| <= 20 && r[..4] == "CUR_" && LetterFirst(r)
  {
    var h := Hex(handle);
    HexLength(handle, 16);
    "CUR_" + seq(8 - Min(8, |h|), _ => '0') + h
  }

  /** A statement handle (STMT). */
  class Stmt {
    var dbc: Dbc?
    var next: Stmt?
    var cursorname: array<char>
    var ncols: int
    var nrows: int
    var rowp: int
    /** `rows != NULL`, and the rows below the column-name row (None for SQL NULL). */
    var hasRows: bool
    var rows: seq<seq<Option<string>>>
    var bindcols: array?<BindCol>
    var bindparms: array?<BindParm>
    var nbindparms: int
    var sqlstate: string
    var logmsg: string

    ghost predicate Valid()
      reads this, cursorname, bindcols, bindparms
    {
      cursorname.Length == 32 && 0 <= ncols && 0 <= nrows && Positioned(rowp, nrows) &&
      (hasRows ==> |rows| == nrows && forall r :: 0 <= r < |rows| ==> |rows[r]| == ncols) &&
      (bindcols != null ==> bindcols.Length == ncols &&
                            forall i :: 0 <= i < ncols ==> 0 <= bindcols[i].offs) &&
      (bindparms != null ==> bindparms.Length == nbindparms) &&
      (bindparms == null ==> nbindparms == 0)
    }

    /** The statement `drvallocstmt` creates (sqliteodbc.c:4400-4412): all fields cleared,
        owned by `d`, named after its address `handle`. */
    constructor (d: Dbc?, handle: nat)
      requires handle < Pow16(16)
      ensures Valid() && fresh(cursorname)
      ensures dbc == d && next == null && !hasRows && bindcols == null && bindparms == null
      ensures rowp == 0 && nrows == 0 && ncols == 0
      ensures var name := DefaultCursorName(handle);
              cursorname[..|name|] == name && cursorname[|name|] == '\0'
    {
      var buf := NameBuffer(DefaultCursorName(handle));
      dbc := d;
      next := null;
      cursorname := buf;
      ncols := 0;
      nrows := 0;
      rowp := 0;
      hasRows := false;
      rows := [];
      bindcols := null;
      bindparms := null;
      nbindparms := 0;
      sqlstate := "";
      logmsg := "";
    }

    /** Copy `t` into the first `len` characters of `val`, padded with NULs. */
    static method PutText(val: array<char>, len: int, t: string)
      requires 0 <= |t| <= len <= val.Length
      modifies val
      ensures val[..len] == t + seq(len - |t|, _ => '\0')
      ensures val[len..] == old(val[len..])
    {
      forall i | 0 <= i < len {
        val[i] := if i < |t| then t[i] else '\0';
      }
      assert val[..len] == t + seq(len - |t|, _ => '\0');
    }

    /** The 32-character cursor name buffer holding `name` and its terminator. */
    static method NameBuffer(name: string) returns (buf: array<char>)
      requires |name| < 32
      ensures fresh(buf) && buf.Length == 32
      ensures buf[..|name|] == name && buf[|name|] == '\0'
    {
      buf := new char[32](i => '\0');
      forall i | 0 <= i < |name| {
        buf[i] := name[i];
      }
    }

    /** The parameter slots, empty while `bindparms` is NULL. */
    function Params(): seq<BindParm>
      reads this, bindparms
    {
      if bindparms == null then [] else bindparms[..]
    }

    /** `drvbindparam` (sqliteodbc.c:1616-1669) for parameter `pnum` (1-based). */
    method BindParam(pnum: nat, buftype: int, ptype: int, buflen: int, lenp: int, param: int)
      returns (rc: int)
      requires Valid()
      modifies this, bindparms
      ensures Valid()
      ensures pnum == 0 ==> rc == SQL_ERROR && sqlstate == "S1093" && logmsg == "invalid parameter" &&
                            Params() == old(Params())
      ensures pnum != 0 ==> rc == SQL_SUCCESS &&
                            Params() == Bound(old(Params()), old(bindparms) != null, pnum,
                                              BindParm(buftype, ptype, buflen, lenp, param))
      ensures cursorname == old(cursorname) && bindcols == old(bindcols)
      ensures rowp == old(rowp) && nrows == old(nrows) && ncols == old(ncols) && rows == old(rows)
      ensures hasRows == old(hasRows) && dbc == old(dbc) && next == old(next)
    {
      if pnum == 0 {
        logmsg := "invalid parameter";
        sqlstate := "S1093";
        return SQL_ERROR;
      }
      var k := pnum - 1;
      var slots := SlotArray(pnum);
      bindparms, nbindparms := slots, slots.Length;
      slots[k] := BindParm(buftype, ptype, buflen, lenp, param);
      return SQL_SUCCESS;
    }

    /** The slot array of `drvbindparam`: the current one, a grown copy, or a first one. */
    method SlotArray(pnum: nat) returns (a: array<BindParm>)
      requires Valid() && pnum >= 1
      ensures a[..] == Slots(Params(), bindparms != null, pnum)
      ensures a == bindparms || fresh(a)
    {
      var k := pnum - 1;
      if bindparms != null {
        a := bindparms;
        if k >= nbindparms {
          a := new BindParm[k + 1](_ => NoParm);
          forall i | 0 <= i < nbindparms {
            a[i] := bindparms[i];
          }
          assert a[..] == bindparms[..] + Zeroed(pnum - nbindparms);
        }
      } else {
        var npar := Max(10, k + 1);
        a := new BindParm[npar](_ => NoParm);
        assert a[..] == Zeroed(npar);
      }
    }

    /** The `dofetch` loop as written: reset each column's offset and fill each bound
        column, stopping at the first one `getrowdata` cannot fill. The columns after it
        keep the offset an earlier `SQLGetData` left. */
    method FillRowAsWritten() returns (rc: int)
      requires Valid() && bindcols != null && hasRows && 0 <= rowp < nrows
      modifies bindcols
      ensures Valid()
      ensures var k := FirstFailing(old(bindcols[..]), 0);
              rc == (if k < ncols then SQL_ERROR else SQL_SUCCESS) &&
              bindcols[..] == ResetOffsets(old(bindcols[..]), Min(k + 1, ncols))
    {
      var i := 0;
      while i < ncols
        invariant 0 <= i <= ncols
        invariant FirstFailing(old(bindcols[..]), 0) >= i
        invariant bindcols[..] == ResetOffsets(old(bindcols[..]), i)
        invariant forall j :: 0 <= j < ncols ==> 0 <= bindcols[j].offs
      {
        bindcols[i] := bindcols[i].(offs := 0);
        if Fails(bindcols[i]) {
          assert FirstFailing(old(bindcols[..]), 0) == i;
          return SQL_ERROR;
        }
        i := i + 1;
      }
      return SQL_SUCCESS;
    }

    /** The `dofetch` loop with every column's offset reset, also those after a column
        `getrowdata` cannot fill, so that `SQLGetData` reads each value of the new row
        from its start. */
    method FillRow() returns (rc: int)
      requires Valid() && bindcols != null && hasRows && 0 <= rowp < nrows
      modifies bindcols
      ensures Valid()
      ensures rc == (if FirstFailing(old(bindcols[..]), 0) < ncols then SQL_ERROR else SQL_SUCCESS)
      ensures bindcols[..] == ResetOffsets(old(bindcols[..]), ncols)
      ensures forall i :: 0 <= i < ncols ==> bindcols[i].offs == 0
    {
      rc := SQL_SUCCESS;
      var i := 0;
      while i < ncols
        invariant 0 <= i <= ncols
        invariant bindcols[..] == ResetOffsets(old(bindcols[..]), i)
        invariant rc == (if FirstFailing(old(bindcols[..]), 0) < i then SQL_ERROR else SQL_SUCCESS)
        invariant forall j :: 0 <= j < ncols ==> 0 <= bindcols[j].offs
      {
        bindcols[i] := bindcols[i].(offs := 0);
        if Fails(bindcols[i]) {
          rc := SQL_ERROR;
        } else {
          assert FirstFailing(old(bindcols[..]), 0) != i;
        }
        i := i + 1;
      }
    }

    /** `SQLFetch` (sqliteodbc.c:5860-5906), with FETCH_NEXT stopping at "after the last
        row" (see `Cursor.Next`) and every column offset reset (see `FillRow`). */
    method Fetch() returns (rc: int)
      requires Valid()
      modifies this, bindcols
      ensures Valid()
      ensures bindcols == old(bindcols) && nrows == old(nrows) && ncols == old(ncols)
      ensures rows == old(rows) && hasRows == old(hasRows) && cursorname == old(cursorname)
      ensures bindparms == old(bindparms) && dbc == old(dbc) && next == old(next)
      ensures old(bindcols) == null ==> rc == SQL_ERROR && rowp == old(rowp)
      ensures old(bindcols) != null && (!hasRows || nrows < 1) ==>
                rc == SQL_NO_DATA && rowp == old(rowp) && bindcols[..] == old(bindcols[..])
      ensures old(bindcols) != null && hasRows && nrows >= 1 ==>
                var m := Next(old(rowp), nrows);
                rowp == m.row &&
                (m.NoData? ==> rc == SQL_NO_DATA && bindcols[..] == old(bindcols[..])) &&
                (m.Fetch? ==> var k := FirstFailing(old(bindcols[..]), 0);
                              rc == (if k < ncols then SQL_ERROR else SQL_SUCCESS) &&
                              bindcols[..] == ResetOffsets(old(bindcols[..]), ncols))
    {
      if bindcols == null {
        return SQL_ERROR;
      }
      if !hasRows || nrows < 1 {
        return SQL_NO_DATA;
      }
      var m := Next(rowp, nrows);
      rowp := m.row;
      if m.NoData? {
        return SQL_NO_DATA;
      }
      rc := FillRow();
    }

    /** `drvfetchscroll` (sqliteodbc.c:5916-5996), with FETCH_NEXT stopping at "after the
        last row" (see `Cursor.Scroll`) and every column offset reset (see `FillRow`). */
    method FetchScroll(orient: int, offset: int) returns (rc: int)
      requires Valid()
      modifies this, bindcols
      ensures Valid()
      ensures bindcols == old(bindcols) && nrows == old(nrows) && ncols == old(ncols)
      ensures rows == old(rows) && hasRows == old(hasRows) && cursorname == old(cursorname)
      ensures bindparms == old(bindparms) && dbc == old(dbc) && next == old(next)
      ensures old(bindcols) == null ==> rc == SQL_ERROR && rowp == old(rowp)
      ensures old(bindcols) != null && !hasRows ==>
                rc == SQL_NO_DATA && rowp == old(rowp) && bindcols[..] == old(bindcols[..])
      ensures old(bindcols) != null && hasRows ==>
                var m := Scroll(orient, offset, old(rowp), nrows);
                (m.Invalid? ==> rc == SQL_ERROR && rowp == old(rowp) && bindcols[..] == old(bindcols[..])) &&
                (m.NoData? ==> rc == SQL_NO_DATA && rowp == m.row && bindcols[..] == old(bindcols[..])) &&
                (m.Fetch? ==> var k := FirstFailing(old(bindcols[..]), 0);
                              rowp == m.row && rc == (if k < ncols then SQL_ERROR else SQL_SUCCESS) &&
                              bindcols[..] == ResetOffsets(old(bindcols[..]), ncols))
    {
      if bindcols == null {
        return SQL_ERROR;
      }
      if !hasRows {
        return SQL_NO_DATA;
      }
      var m := Scroll(orient, offset, rowp, nrows);
      if m.Invalid? {
        return SQL_ERROR;
      }
      rowp := m.row;
      if m.NoData? {
        return SQL_NO_DATA;
      }
      rc := FillRow();
    }

    /** The value in column `col` of the current row, when there is one. */
    function Cell(col: int): Option<Option<string>>
      reads this
    {
      if hasRows && 0 <= rowp < |rows| && 0 <= col < |rows[rowp]| then Some(rows[rowp][col]) else None
    }

    /** `SQLGetData` for a SQL_C_CHAR or SQL_C_BINARY target (sqliteodbc.c:5835-5852 with
        the character branch of `getrowdata`, sqliteodbc.c:4748-4934): successive calls
        return successive pieces of the value through `bindcols[col].offs`. A NULL `val`
        receives nothing. */
    method GetData(col: int, ctype: int, val: array?<char>, len: int) returns (rc: int, lenp: Option<int>)
      requires Valid()
      requires ctype == SQL_C_CHAR || ctype == SQL_C_BINARY
      requires 0 <= len && (val != null ==> val.Length >= Max(len, 1))
      requires val != bindcols as object? && val != cursorname as object?
      modifies `sqlstate, `logmsg, val, bindcols
      ensures Valid()
      ensures bindcols == old(bindcols) && nrows == old(nrows) && ncols == old(ncols) && rowp == old(rowp)
      ensures rows == old(rows) && hasRows == old(hasRows) && cursorname == old(cursorname)
      ensures bindparms == old(bindparms) && dbc == old(dbc) && next == old(next)
      ensures col < 1 || col > ncols ==>
                rc == SQL_ERROR && sqlstate == "S1002" && logmsg == "invalid column" && lenp.None?
      ensures 1 <= col <= ncols && Cell(col - 1).None? ==> rc == SQL_NO_DATA && lenp.None?
      ensures 1 <= col <= ncols && Cell(col - 1) == Some(None) ==>
                rc == SQL_SUCCESS && lenp == Some(SQL_NULL_DATA) && (val != null ==> val[0] == '\0')
      ensures 1 <= col <= ncols && Cell(col - 1).Some? && Cell(col - 1).value.Some? ==>
                var chunked := old(bindcols) != null;
                var c := CharChunk(Cell(col - 1).value.value, if chunked then old(bindcols[col - 1].offs) else 0,
                                   len, val != null, chunked);
                rc == c.rc && lenp == c.lenp &&
                (c.text.Some? ==> val[..len] == c.text.value + seq(len - |c.text.value|, _ => '\0')) &&
                (c.text.None? && val != null && len >= 1 ==> val[len - 1] == '\0') &&
                (chunked ==> bindcols[..] == old(bindcols[..])[col - 1 := old(bindcols[col - 1]).(offs := c.offs)])
      ensures (col < 1 || col > ncols || !(Cell(col - 1).Some? && Cell(col - 1).value.Some?)) && bindcols != null ==>
                bindcols[..] == old(bindcols[..])
    {
      lenp := None;
      if col < 1 || col > ncols {
        logmsg := "invalid column";
        sqlstate := "S1002";
        return SQL_ERROR, None;
      }
      var c0 := col - 1;
      if !hasRows || rowp < 0 || rowp >= nrows {
        return SQL_NO_DATA, None;
      }
      var cell := rows[rowp][c0];
      if cell.None? {
        if val != null {
          val[0] := '\0';
        }
        return SQL_SUCCESS, Some(SQL_NULL_DATA);
      }
      var v := cell.value;
      var chunked := bindcols != null;
      var offs := if chunked then bindcols[c0].offs else 0;
      var c := CharChunk(v, offs, len, val != null, chunked);
      if c.text.Some? {
        PutText(val, len, c.text.value);
      } else if val != null && len >= 1 {
        val[len - 1] := '\0';
      }
      if chunked {
        bindcols[c0] := bindcols[c0].(offs := c.offs);
      }
      return c.rc, c.lenp;
    }

    /** `drvsetcursorname` (sqliteodbc.c:4563-4587). */
    method SetCursorName(cursor: Option<CString>, len: int) returns (rc: int)
      requires Valid()
      modifies this, cursorname
      ensures Valid()
      ensures cursorname == old(cursorname) && bindcols == old(bindcols) && bindparms == old(bindparms)
      ensures rowp == old(rowp) && nrows == old(nrows) && ncols == old(ncols) && rows == old(rows)
      ensures hasRows == old(hasRows) && dbc == old(dbc) && next == old(next)
      ensures cursor.None? || !LetterFirst(cursor.value) ==>
                rc == SQL_ERROR && sqlstate == "S1C00" && logmsg == "invalid cursor name" &&
                cursorname[..] == old(cursorname[..])
      ensures cursor.Some? && LetterFirst(cursor.value) ==>
                var name := CursorName(cursor.value, len);
                var n := if len < 0 then 31 else Min(31, len);
                rc == SQL_SUCCESS && cursorname[..|name|] == name &&
                (forall j :: |name| <= j <= n ==> cursorname[j] == '\0') &&
                cursorname[n + 1..] == old(cursorname[n + 1..])
    {
      if cursor.None? || !LetterFirst(cursor.value) {
        logmsg := "invalid cursor name";
        sqlstate := "S1C00";
        return SQL_ERROR;
      }
      var src := cursor.value;
      var n := if len < 0 then 31 else Min(31, len);
      var name := CursorName(src, len);
      forall i | 0 <= i < n {
        cursorname[i] := if i < |name| then name[i] else '\0';
      }
      cursorname[n] := '\0';
      return SQL_SUCCESS;
    }
  }

  /** The statement freed by `freestmt`: `freeresult(s, 1)` dropped its rows and its
      column bindings, and its parameter bindings are released. */
  ghost predicate Freed(s: Stmt)
    reads s
  {
    !s.hasRows && s.nrows == 0 && s.bindcols == null && s.ncols == 0 && s.bindparms == null
  }

  /** `xs` with the first occurrence of `x` taken out. */
  function Without<T(==)>(xs: seq<T>, x: T): (r: seq<T>)
    ensures x !in xs ==> r == xs
    ensures |r| == if x in xs then |xs| - 1 else |xs|
  {
    if xs == [] then [] else if xs[0] == x then xs[1..] else [xs[0]] + Without(xs[1..], x)
  }

  /** Taking out an element that occurs first at `i` splices the list around `i`. */
  lemma {:induction false} WithoutAt<T>(xs: seq<T>, i: nat)
    requires i < |xs| && xs[i] !in xs[..i]
    ensures Without(xs, xs[i]) == xs[..i] + xs[i + 1..]
  {
    if i > 0 {
      assert xs[1..][..i - 1] == xs[1..i];
      WithoutAt(xs[1..], i - 1);
      assert xs[..i] == [xs[0]] + xs[1..i];
    }
  }

  /** No element occurs twice. */
  predicate Distinct<T(==)>(xs: seq<T>) {
    forall i, j :: 0 <= i < j < |xs| ==> xs[i] != xs[j]
  }

  /** In a list without repetitions, no other position holds the element at `k`. */
  lemma DistinctOthers<T>(xs: seq<T>, k: nat)
    requires k < |xs| && Distinct(xs)
    ensures forall j :: 0 <= j < |xs| && j != k ==> xs[j] != xs[k]
  {
  }

  /** Taking one element out of a list without repetitions leaves a list without
      repetitions, made of elements of the original. */
  lemma SpliceDistinct<T>(xs: seq<T>, i: nat)
    requires i < |xs| && Distinct(xs)
    ensures Distinct(xs[..i] + xs[i + 1..])
    ensures forall y :: y in xs[..i] + xs[i + 1..] ==> y in xs
    ensures xs[i] !in xs[..i] + xs[i + 1..]
  {
    var ys := xs[..i] + xs[i + 1..];
    forall j, k | 0 <= j < k < |ys|
      ensures ys[j] != ys[k]
    {
      var j' := if j < i then j else j + 1;
      var k' := if k < i then k else k + 1;
      assert ys[j] == xs[j'] && ys[k] == xs[k'];
    }
    forall y | y in ys
      ensures y in xs
    {
      var j :| 0 <= j < |ys| && ys[j] == y;
      assert ys[j] == xs[if j < i then j else j + 1];
    }
  }

  /** The `next` fields of `os`, in order. */
  ghost function StmtNexts(os: seq<Stmt>): (r: seq<Stmt?>)
    reads set x | x in os
    ensures |r| == |os| && forall j :: 0 <= j < |os| ==> r[j] == os[j].next
  {
    if os == [] then [] else [os[0].next] + StmtNexts(os[1..])
  }

  /** With `nx` the `next` fields of a NULL-terminated chain through `os`: pointing the
      predecessor of `os[i]` at its successor, and changing no other `next`, leaves a
      NULL-terminated chain through `ys`, which is `os` without `os[i]`. */
  lemma StmtBypass(os: seq<Stmt>, nx: seq<Stmt?>, i: nat, ys: seq<Stmt>)
    requires i < |os| == |nx| && ys == os[..i] + os[i + 1..]
    requires forall j :: 0 <= j < |os| - 1 ==> nx[j] == os[j + 1]
    requires nx[|os| - 1] == null
    requires i > 0 ==> os[i - 1].next == nx[i]
    requires forall j :: 0 <= j < |os| && j + 1 != i ==> os[j].next == nx[j]
    ensures forall j :: 0 <= j < |ys| - 1 ==> ys[j].next == ys[j + 1]
    ensures ys != [] ==> ys[|ys| - 1].next == null
  {
    forall j | 0 <= j < |ys| - 1
      ensures ys[j].next == ys[j + 1]
    {
      if j + 1 < i {
        assert ys[j] == os[j] && ys[j + 1] == os[j + 1];
      } else if j + 1 == i {
        assert ys[j] == os[i - 1] && ys[j + 1] == os[i + 1];
      } else {
        assert ys[j] == os[j + 1] && ys[j + 1] == os[j + 2];
      }
    }
    if ys != [] {
      var last := |ys| - 1;
      if last + 1 == i {
        assert ys[last] == os[i - 1];
      } else {
        assert ys[last] == os[last + 1];
      }
    }
  }

  /** The `next` fields of `os`, in order. */
  ghost function DbcNexts(os: seq<Dbc>): (r: seq<Dbc?>)
    reads set x | x in os
    ensures |r| == |os| && forall j :: 0 <= j < |os| ==> r[j] == os[j].next
  {
    if os == [] then [] else [os[0].next] + DbcNexts(os[1..])
  }

  /** With `nx` the `next` fields of a NULL-terminated chain through `os`: pointing the
      predecessor of `os[i]` at its successor, and changing no other `next`, leaves a
      NULL-terminated chain through `ys`, which is `os` without `os[i]`. */
  lemma DbcBypass(os: seq<Dbc>, nx: seq<Dbc?>, i: nat, ys: seq<Dbc>)
    requires i < |os| == |nx| && ys == os[..i] + os[i + 1..]
    requires forall j :: 0 <= j < |os| - 1 ==> nx[j] == os[j + 1]
    requires nx[|os| - 1] == null
    requires i > 0 ==> os[i - 1].next == nx[i]
    requires forall j :: 0 <= j < |os| && j + 1 != i ==> os[j].next == nx[j]
    ensures forall j :: 0 <= j < |ys| - 1 ==> ys[j].next == ys[j + 1]
    ensures ys != [] ==> ys[|ys| - 1].next == null
  {
    forall j | 0 <= j < |ys| - 1
      ensures ys[j].next == ys[j + 1]
    {
      if j + 1 < i {
        assert ys[j] == os[j] && ys[j + 1] == os[j + 1];
      } else if j + 1 == i {
        assert ys[j] == os[i - 1] && ys[j + 1] == os[i + 1];
      } else {
        assert ys[j] == os[j + 1] && ys[j + 1] == os[j + 2];
      }
    }
    if ys != [] {
      var last := |ys| - 1;
      if last + 1 == i {
        assert ys[last] == os[i - 1];
      } else {
        assert ys[last] == os[last + 1];
      }
    }
  }

  /** A connection handle (DBC). `connected` stands for `sqlite != NULL`. */
  class Dbc {
    var magic: int
    var env: Env?
    var next: Dbc?
    var connected: bool
    var autocommit: bool
    var intrans: bool
    var stmt: Stmt?
    /** The statements reachable from `stmt`, in list order. */
    ghost var stmts: seq<Stmt>
    var sqlstate: string
    var logmsg: string

    /** `stmt` heads a NULL-terminated chain through `next` that visits `stmts` in order,
        each statement once, and every statement on it belongs to this connection. */
    ghost predicate StmtList()
      reads this, stmts
    {
      (stmt == if stmts == [] then null else stmts[0]) &&
      (forall i {:trigger stmts[i].next} :: 0 <= i < |stmts| - 1 ==> stmts[i].next == stmts[i + 1]) &&
      (stmts != [] ==> stmts[|stmts| - 1].next == null) &&
      Distinct(stmts) &&
      (forall x :: x in stmts ==> x.dbc == this)
    }

    /** The cleared connection `drvallocconnect` starts from (its `memset`). */
    constructor ()
      ensures magic == 0 && env == null && next == null && stmt == null && stmts == []
      ensures !connected && !autocommit && !intrans
      ensures StmtList()
    {
      magic := 0;
      env := null;
      next := null;
      connected := false;
      autocommit := false;
      intrans := false;
      stmt := null;
      stmts := [];
      sqlstate := "";
      logmsg := "";
    }

    /** The walk of `drvallocstmt` to the end of the statement list. */
    method LastStmt() returns (p: Stmt?)
      requires StmtList()
      ensures p == if stmts == [] then null else stmts[|stmts| - 1]
    {
      var n := stmt;
      p := null;
      ghost var i := 0;
      while n != null
        invariant 0 <= i <= |stmts|
        invariant n == if i < |stmts| then stmts[i] else null
        invariant p == if i == 0 then null else stmts[i - 1]
        decreases |stmts| - i
      {
        p := n;
        n := n.next;
        i := i + 1;
      }
    }

    /** The tail append of `drvallocstmt`: `s` becomes the last statement. */
    method AppendStmt(s: Stmt)
      requires StmtList() && s !in stmts && s.next == null && s.dbc == this
      modifies `stmt, `stmts, stmts
      ensures stmts == old(stmts) + [s] && StmtList()
    {
      var p := LastStmt();
      if p != null {
        p.next := s;
      } else {
        stmt := s;
      }
      stmts := stmts + [s];
      assert stmts[|stmts| - 1] == s;
    }

    /** The walk of `freestmt` looking for `s`: `found` when `s` is on the list, with its
        predecessor `p` (NULL for the head). */
    method FindStmt(s: Stmt) returns (p: Stmt?, found: bool, ghost i: nat)
      requires StmtList()
      ensures found <==> s in stmts
      ensures found ==> i < |stmts| && stmts[i] == s && p == if i == 0 then null else stmts[i - 1]
      ensures found ==> Without(stmts, s) == stmts[..i] + stmts[i + 1..]
    {
      var n := stmt;
      p := null;
      i := 0;
      while n != null && n != s
        invariant 0 <= i <= |stmts|
        invariant n == if i < |stmts| then stmts[i] else null
        invariant p == if i == 0 then null else stmts[i - 1]
        invariant s !in stmts[..i]
        decreases |stmts| - i
      {
        assert StmtList();
        assert 0 <= i < |stmts| && n == stmts[i];
        assert n.next == if i + 1 < |stmts| then stmts[i + 1] else null;
        p := n;
        n := n.next;
        i := i + 1;
      }
      found := n != null;
      if !found {
        assert stmts[..i] == stmts;
      } else {
        assert s !in stmts[..i] by {
          forall j | 0 <= j < i ensures stmts[j] != s { }
        }
        WithoutAt(stmts, i);
      }
    }

    /** The unlink of `freestmt`: `s` leaves the list, the rest keeps its order. */
    method UnlinkStmt(s: Stmt)
      requires StmtList()
      modifies `stmt, `stmts, stmts
      ensures stmts == Without(old(stmts), s) && StmtList()
      ensures unchanged(s)
    {
      var p, found, i := FindStmt(s);
      if found {
        BypassStmt(p, s, i);
      }
    }

    /** Unlinking `s`, found at `i` with predecessor `p`. */
    method BypassStmt(p: Stmt?, s: Stmt, ghost i: nat)
      requires StmtList() && i < |stmts| && stmts[i] == s && p == if i == 0 then null else stmts[i - 1]
      modifies `stmt, `stmts, stmts
      ensures stmts == old(stmts[..i] + stmts[i + 1..]) && StmtList()
      ensures unchanged(s)
    {
      ghost var os := stmts;
      ghost var nx := StmtNexts(os);
      if i > 0 { DistinctOthers(os, i - 1); }
      var after := s.next;
      if p != null {
        p.next := after;
      } else {
        stmt := after;
      }
      stmts := os[..i] + os[i + 1..];
      SplicedStmts(os, nx, i);
    }

    /** The list invariant after `os[i]` has been unlinked, with `nx` the `next` fields
        before. */
    lemma SplicedStmts(os: seq<Stmt>, nx: seq<Stmt?>, i: nat)
      requires i < |os| == |nx| && Distinct(os)
      requires forall j :: 0 <= j < |os| - 1 ==> nx[j] == os[j + 1]
      requires nx[|os| - 1] == null
      requires forall x :: x in os ==> x.dbc == this
      requires stmts == os[..i] + os[i + 1..]
      requires stmt == if i == 0 then nx[0] else os[0]
      requires i > 0 ==> os[i - 1].next == nx[i]
      requires forall j :: 0 <= j < |os| && j + 1 != i ==> os[j].next == nx[j]
      ensures StmtList()
    {
      StmtBypass(os, nx, i, stmts);
      SpliceDistinct(os, i);
    }

    /** `endtran` with a failed COMMIT reported as SQL_ERROR (sqliteodbc.c:2370-2415);
        `issued` lists the statements handed to `sqlite_exec`. */
    method EndTran(comptype: int, first: Exec, second: Exec) returns (rc: int, issued: seq<string>)
      modifies `intrans, `sqlstate, `logmsg
      ensures var t := Transactions.EndTran(connected, autocommit, old(intrans), comptype, first, second);
              rc == t.rc && intrans == t.intrans && issued == t.issued &&
              (sqlstate, logmsg) == if t.err.Some? then t.err.value else (old(sqlstate), old(logmsg))
    {
      issued := [];
      if !connected {
        logmsg, sqlstate := "not connected", "S1000";
        return SQL_ERROR, issued;
      }
      if autocommit || !intrans {
        return SQL_SUCCESS, issued;
      }
      if comptype != SQL_COMMIT && comptype != SQL_ROLLBACK {
        logmsg, sqlstate := "invalid completion type", "S1000";
        return SQL_ERROR, issued;
      }
      intrans := false;
      issued := [if comptype == SQL_COMMIT then Commit else Rollback];
      if first.ExecOk? {
        return SQL_SUCCESS, issued;
      }
      logmsg, sqlstate := FailureText(first.errmsg), "S1000";
      issued := issued + [Rollback];
      if comptype == SQL_COMMIT || second.ExecFailed? {
        rc := SQL_ERROR;
      } else {
        rc := SQL_SUCCESS;
      }
    }

    /** `drvsetconnectoption` (sqliteodbc.c:3933-3955) with the open transaction committed
        before autocommit is switched on; other options are accepted and ignored. */
    method SetConnectOption(opt: int, param: int, first: Exec, second: Exec) returns (rc: int, issued: seq<string>)
      modifies `autocommit, `intrans, `sqlstate, `logmsg
      ensures opt != SQL_AUTOCOMMIT ==>
                rc == SQL_SUCCESS && issued == [] && autocommit == old(autocommit) && intrans == old(intrans)
      ensures opt == SQL_AUTOCOMMIT ==>
                var r := SetAutocommit(connected, old(intrans), param, first, second);
                autocommit == r.0 && rc == r.1.rc && intrans == r.1.intrans && issued == r.1.issued
    {
      rc, issued := SQL_SUCCESS, [];
      if opt == SQL_AUTOCOMMIT {
        var on := param == SQL_AUTOCOMMIT_ON;
        if on && intrans {
          autocommit := false;
          rc, issued := EndTran(SQL_COMMIT, first, second);
        }
        autocommit := on;
      }
    }
  }

  /** An environment handle (ENV). */
  class Env {
    var magic: int
    var dbcs: Dbc?
    /** The connections reachable from `dbcs`, in list order. */
    ghost var conns: seq<Dbc>

    /** `dbcs` heads a NULL-terminated chain through `next` that visits `conns` in order,
        each connection once, and every connection on it points back to this environment. */
    ghost predicate ConnList()
      reads this, conns
    {
      (dbcs == if conns == [] then null else conns[0]) &&
      (forall i {:trigger conns[i].next} :: 0 <= i < |conns| - 1 ==> conns[i].next == conns[i + 1]) &&
      (conns != [] ==> conns[|conns| - 1].next == null) &&
      Distinct(conns) &&
      (forall x :: x in conns ==> x.env == this)
    }

    /** `drvallocenv` (sqliteodbc.c:3410-3427): a live environment with no connections. */
    constructor ()
      ensures magic == ENV_MAGIC && dbcs == null && conns == [] && ConnList()
    {
      magic := ENV_MAGIC;
      dbcs := null;
      conns := [];
    }

    /** The walk of `drvallocconnect` to the end of the connection list. */
    method LastConn() returns (p: Dbc?)
      requires ConnList()
      ensures p == if conns == [] then null else conns[|conns| - 1]
    {
      var n := dbcs;
      p := null;
      ghost var i := 0;
      while n != null
        invariant 0 <= i <= |conns|
        invariant n == if i < |conns| then conns[i] else null
        invariant p == if i == 0 then null else conns[i - 1]
        decreases |conns| - i
      {
        p := n;
        n := n.next;
        i := i + 1;
      }
    }

    /** The tail append of `drvallocconnect`: `d` becomes the last connection. */
    method AppendConn(d: Dbc)
      requires ConnList() && d !in conns && d.next == null && d.env == this
      modifies `dbcs, `conns, conns
      ensures conns == old(conns) + [d] && ConnList()
    {
      var p := LastConn();
      if p != null {
        p.next := d;
      } else {
        dbcs := d;
      }
      conns := conns + [d];
      assert conns[|conns| - 1] == d;
    }

    /** The walk of `drvfreeconnect` looking for `d`. */
    method FindConn(d: Dbc) returns (p: Dbc?, found: bool, ghost i: nat)
      requires ConnList()
      ensures found <==> d in conns
      ensures found ==> i < |conns| && conns[i] == d && p == if i == 0 then null else conns[i - 1]
      ensures found ==> Without(conns, d) == conns[..i] + conns[i + 1..]
    {
      var n := dbcs;
      p := null;
      i := 0;
      while n != null && n != d
        invariant 0 <= i <= |conns|
        invariant n == if i < |conns| then conns[i] else null
        invariant p == if i == 0 then null else conns[i - 1]
        invariant d !in conns[..i]
        decreases |conns| - i
      {
        assert ConnList();
        assert 0 <= i < |conns| && n == conns[i];
        assert n.next == if i + 1 < |conns| then conns[i + 1] else null;
        p := n;
        n := n.next;
        i := i + 1;
      }
      found := n != null;
      if !found {
        assert conns[..i] == conns;
      } else {
        assert d !in conns[..i] by {
          forall j | 0 <= j < i ensures conns[j] != d { }
        }
        WithoutAt(conns, i);
      }
    }

    /** The unlink of `drvfreeconnect`: `d` leaves the list, the rest keeps its order. */
    method UnlinkConn(d: Dbc)
      requires ConnList()
      modifies `dbcs, `conns, conns
      ensures conns == Without(old(conns), d) && ConnList() && d !in conns
      ensures unchanged(d)
    {
      var p, found, i := FindConn(d);
      if found {
        BypassConn(p, d, i);
      }
    }

    /** Unlinking `d`, found at `i` with predecessor `p`. */
    method BypassConn(p: Dbc?, d: Dbc, ghost i: nat)
      requires ConnList() && i < |conns| && conns[i] == d && p == if i == 0 then null else conns[i - 1]
      modifies `dbcs, `conns, conns
      ensures conns == old(conns[..i] + conns[i + 1..]) && ConnList()
      ensures unchanged(d)
    {
      ghost var os := conns;
      ghost var nx := DbcNexts(os);
      if i > 0 { DistinctOthers(os, i - 1); }
      var after := d.next;
      if p != null {
        p.next := after;
      } else {
        dbcs := after;
      }
      conns := os[..i] + os[i + 1..];
      SplicedConns(os, nx, i);
    }

    /** The list invariant after `os[i]` has been unlinked, with `nx` the `next` fields
        before. */
    lemma SplicedConns(os: seq<Dbc>, nx: seq<Dbc?>, i: nat)
      requires i < |os| == |nx| && Distinct(os)
      requires forall j :: 0 <= j < |os| - 1 ==> nx[j] == os[j + 1]
      requires nx[|os| - 1] == null
      requires forall x :: x in os ==> x.env == this
      requires conns == os[..i] + os[i + 1..]
      requires dbcs == if i == 0 then nx[0] else os[0]
      requires i > 0 ==> os[i - 1].next == nx[i]
      requires forall j :: 0 <= j < |os| && j + 1 != i ==> os[j].next == nx[j]
      ensures ConnList() && os[i] !in conns
    {
      DbcBypass(os, nx, i, conns);
      SpliceDistinct(os, i);
    }
  }

  /** `drvallocconnect` (sqliteodbc.c:3486-3549): a new connection with autocommit on,
      appended at the tail of the environment's list when the environment is live. */
  method AllocConnect(e: Env) returns (rc: int, d: Dbc)
    requires e.ConnList()
    modifies e`dbcs, e`conns, e.conns
    ensures fresh(d) && rc == SQL_SUCCESS
    ensures d.magic == DBC_MAGIC && d.autocommit && !d.intrans && !d.connected
    ensures d.next == null && d.stmts == [] && d.StmtList()
    ensures e.ConnList()
    ensures e.magic == ENV_MAGIC ==> d.env == e && e.conns == old(e.conns) + [d]
    ensures e.magic != ENV_MAGIC ==> d.env == null && e.conns == old(e.conns)
  {
    d := new Dbc();
    if e.magic == ENV_MAGIC {
      d.env := e;
      e.AppendConn(d);
    }
    d.autocommit := true;
    d.magic := DBC_MAGIC;
    rc := SQL_SUCCESS;
  }

  /** `drvallocstmt` (sqliteodbc.c:4387-4425): on a live connection, a new statement
      named after its handle and appended at the tail of the statement list. */
  method AllocStmt(d: Dbc, handle: nat) returns (rc: int, s: Stmt?)
    requires handle < Pow16(16)
    requires d.magic == DBC_MAGIC ==> d.StmtList()
    modifies d`stmt, d`stmts, d.stmts
    ensures d.magic != DBC_MAGIC ==> rc == SQL_INVALID_HANDLE && s == null && d.stmts == old(d.stmts)
    ensures d.magic == DBC_MAGIC ==>
              rc == SQL_SUCCESS && s != null && fresh(s) && s.Valid() && s.dbc == d &&
              d.stmts == old(d.stmts) + [s] && d.StmtList()
    ensures d.magic == DBC_MAGIC ==>
              var name := DefaultCursorName(handle);
              s != null && s.cursorname[..|name|] == name && s.cursorname[|name|] == '\0'
  {
    if d.magic != DBC_MAGIC {
      return SQL_INVALID_HANDLE, null;
    }
    s := new Stmt(d, handle);
    d.AppendStmt(s);
    rc := SQL_SUCCESS;
  }

  /** `freestmt` (sqliteodbc.c:4342-4378): drops the result and all bindings, and takes
      the statement off its connection's list when the connection is live. */
  method FreeStmt(s: Stmt) returns (rc: int)
    requires s.dbc != null && (s.dbc.magic == DBC_MAGIC ==> s.dbc.StmtList())
    modifies s, s.dbc`stmt, s.dbc`stmts, s.dbc.stmts
    ensures rc == SQL_SUCCESS && Freed(s) && s.dbc == old(s.dbc)
    ensures s.dbc.magic == DBC_MAGIC ==> s.dbc.stmts == Without(old(s.dbc.stmts), s) && s.dbc.StmtList()
    ensures s.dbc.magic != DBC_MAGIC ==> s.dbc.stmts == old(s.dbc.stmts)
  {
    var d := s.dbc;
    if d.magic == DBC_MAGIC {
      d.UnlinkStmt(s);
    }
    s.hasRows, s.rows := false, [];
    s.nrows := 0;
    s.bindcols := null;
    s.ncols := 0;
    s.bindparms := null;
    rc := SQL_SUCCESS;
  }

  /** The loop of `drvfreeconnect` that frees the statements of `d` from the head of
      the list until none is left. */
  method FreeStmts(d: Dbc)
    requires d.magic == DBC_MAGIC && d.StmtList()
    modifies d`stmt, d`stmts, d.stmts
    ensures d.stmt == null && d.stmts == []
    ensures forall t :: t in old(d.stmts) ==> Freed(t)
  {
    ghost var k := 0;
    while d.stmt != null
      invariant d.StmtList()
      invariant 0 <= k <= |old(d.stmts)| && d.stmts == old(d.stmts)[k..]
      invariant forall t :: t in old(d.stmts)[..k] ==> Freed(t) && t !in d.stmts
      decreases |d.stmts|
    {
      var s := d.stmt;
      assert s == d.stmts[0] && s.dbc == d;
      assert Without(d.stmts, s) == d.stmts[1..];
      var _ := FreeStmt(s);
      assert old(d.stmts)[..k + 1] == old(d.stmts)[..k] + [s];
      k := k + 1;
    }
    assert old(d.stmts)[..k] == old(d.stmts);
  }

  /** `drvfreeconnect` (sqliteodbc.c:3570-3625): refused while connected; otherwise every
      statement is freed, the connection leaves a live environment's list and is marked
      dead. */
  method FreeConnect(d: Dbc) returns (rc: int)
    requires d.magic == DBC_MAGIC ==> d.StmtList()
    requires d.magic == DBC_MAGIC && d.env != null && d.env.magic == ENV_MAGIC ==> d.env.ConnList()
    modifies d, d.stmts, d.env, if d.env != null then d.env.conns else []
    ensures old(d.magic) != DBC_MAGIC ==> rc == SQL_INVALID_HANDLE && unchanged(d)
    ensures old(d.magic) == DBC_MAGIC && d.connected ==>
              rc == SQL_ERROR && d.sqlstate == "S1000" && d.logmsg == "not disconnected" &&
              d.stmts == old(d.stmts) && d.magic == DBC_MAGIC
    ensures old(d.magic) == DBC_MAGIC && !d.connected ==>
              rc == SQL_SUCCESS && d.magic == DEAD_MAGIC && d.stmt == null && d.stmts == [] &&
              forall t :: t in old(d.stmts) ==> Freed(t)
    ensures d.env == old(d.env) && d.connected == old(d.connected)
    ensures var e := d.env;
            old(d.magic) == DBC_MAGIC && !d.connected && e != null && e.magic == ENV_MAGIC ==>
              e.conns == Without(old(e.conns), d) && e.ConnList()
  {
    if d.magic != DBC_MAGIC {
      return SQL_INVALID_HANDLE;
    }
    if d.connected {
      d.logmsg, d.sqlstate := "not disconnected", "S1000";
      return SQL_ERROR;
    }
    Release(d);
    rc := SQL_SUCCESS;
  }

  /** The part of `drvfreeconnect` past its checks: free the statements, unlink `d` from a
      live environment and mark it dead. */
  method Release(d: Dbc)
    requires d.magic == DBC_MAGIC && d.StmtList()
    requires d.env != null && d.env.magic == ENV_MAGIC ==> d.env.ConnList()
    modifies d, d.stmts, d.env, if d.env != null then d.env.conns else []
    ensures d.magic == DEAD_MAGIC && d.stmt == null && d.stmts == []
    ensures forall t :: t in old(d.stmts) ==> Freed(t)
    ensures d.env == old(d.env) && d.connected == old(d.connected)
    ensures var e := d.env;
            e != null && e.magic == ENV_MAGIC ==> e.conns == Without(old(e.conns), d) && e.ConnList()
  {
    FreeStmts(d);
    var e := d.env;
    if e != null && e.magic == ENV_MAGIC {
      e.UnlinkConn(d);
    }
    d.magic := DEAD_MAGIC;
  }
}
