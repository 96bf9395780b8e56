/** The result-cursor rules of sqliteodbc.c as functions of the cursor position: where
    `drvfetchscroll` and `SQLFetch` move `rowp` over a result of `nrows` rows, and how
    the SQL_C_CHAR branch of `getrowdata` hands a long value out in pieces through the
    per-column offset `bindcols[col].offs`. The statement class in module Handles applies
    these rules to its fields. */
module Cursor {
  import opened CStrings
  import opened OdbcCodes

  /** The outcome of the orientation switch: fetch row `row`, report SQL_NO_DATA leaving
      the cursor at `row`, or reject the orientation with SQL_ERROR. */
  datatype Move = Fetch(row: int) | NoData(row: int) | Invalid

  /** -1 is "before the first row" and `nrows` is "after the last row". */
  predicate Positioned(rowp: int, nrows: int) {
    -1 <= rowp <= nrows
  }

  /** The switch of `drvfetchscroll` as written (sqliteodbc.c:5951-5983). */
  function ScrollAsWritten(orient: int, offset: int, rowp: int, nrows: int): (m: Move)
    ensures m.Fetch? && orient != SQL_FETCH_PRIOR ==> m.row < nrows
    ensures m.Fetch? && orient != SQL_FETCH_NEXT ==> 0 <= m.row
    ensures m.Invalid? <==> !(orient in {SQL_FETCH_NEXT, SQL_FETCH_PRIOR, SQL_FETCH_FIRST, SQL_FETCH_LAST, SQL_FETCH_ABSOLUTE})
  {
    if orient == SQL_FETCH_NEXT then
      if nrows < 1 then NoData(rowp)
      else if rowp + 1 >= nrows then NoData(rowp + 1)
      else Fetch(rowp + 1)
    else if orient == SQL_FETCH_PRIOR then
      if nrows < 1 || rowp - 1 < 0 then NoData(-1) else Fetch(rowp - 1)
    else if orient == SQL_FETCH_FIRST then
      if nrows < 1 then NoData(rowp) else Fetch(0)
    else if orient == SQL_FETCH_LAST then
      if nrows < 1 then NoData(rowp) else Fetch(nrows - 1)
    else if orient == SQL_FETCH_ABSOLUTE then
      if offset < 0 || offset >= nrows then NoData(rowp) else Fetch(offset)
    else Invalid
  }

  /** The switch with FETCH_NEXT stopping at "after the last row" instead of counting on:
      the cursor never leaves [-1, nrows], and every fetched row exists. */
  function Scroll(orient: int, offset: int, rowp: int, nrows: int): (m: Move)
    ensures Positioned(rowp, nrows) ==>
              (m.Fetch? ==> 0 <= m.row < nrows) && (m.NoData? ==> Positioned(m.row, nrows))
    ensures m.Invalid? <==> ScrollAsWritten(orient, offset, rowp, nrows).Invalid?
  {
    if orient == SQL_FETCH_NEXT && nrows >= 1 && rowp + 1 >= nrows then NoData(nrows)
    else ScrollAsWritten(orient, offset, rowp, nrows)
  }

  /** The cursor step of `SQLFetch` as written (sqliteodbc.c:5887-5893). */
  function NextAsWritten(rowp: int, nrows: int): (m: Move)
    ensures !m.Invalid?
    ensures m == ScrollAsWritten(SQL_FETCH_NEXT, 0, rowp, nrows) || rowp + 1 < 0
  {
    if nrows < 1 then NoData(rowp)
    else if rowp + 1 < 0 || rowp + 1 >= nrows then NoData(rowp + 1)
    else Fetch(rowp + 1)
  }

  /** `SQLFetch` with the same stop at "after the last row". */
  function Next(rowp: int, nrows: int): (m: Move)
    ensures Positioned(rowp, nrows) ==> m == Scroll(SQL_FETCH_NEXT, 0, rowp, nrows)
    ensures Positioned(rowp, nrows) && 0 <= nrows ==> (m.Fetch? <==> rowp + 1 < nrows)
  {
    if nrows >= 1 && rowp + 1 >= nrows then NoData(nrows) else NextAsWritten(rowp, nrows)
  }

  /** The position after `k` FETCH_NEXT calls. */
  function AfterNexts(rowp: int, nrows: int, k: nat): int
    decreases k
  {
    if k == 0 then rowp else AfterNexts(Scroll(SQL_FETCH_NEXT, 0, rowp, nrows).row, nrows, k - 1)
  }

  /** From any position, FETCH_NEXT walks forward one row at a time and then stays at
      "after the last row". */
  lemma {:induction false} NextWalksForward(rowp: int, nrows: int, k: nat)
    requires 1 <= nrows && Positioned(rowp, nrows)
    ensures AfterNexts(rowp, nrows, k) == Min(rowp + k, nrows)
    decreases k
  {
    if k > 0 {
      var m := Scroll(SQL_FETCH_NEXT, 0, rowp, nrows);
      assert m.row == Min(rowp + 1, nrows);
      NextWalksForward(m.row, nrows, k - 1);
    }
  }

  /** As written: after running off the end twice, FETCH_PRIOR "fetches" row 1 of a
      one-row result, a row that does not exist. */
  lemma PriorPastEndAsWritten()
    ensures ScrollAsWritten(SQL_FETCH_NEXT, 0, -1, 1) == Fetch(0)
    ensures ScrollAsWritten(SQL_FETCH_NEXT, 0, 0, 1) == NoData(1)
    ensures ScrollAsWritten(SQL_FETCH_NEXT, 0, 1, 1) == NoData(2)
    ensures ScrollAsWritten(SQL_FETCH_PRIOR, 0, 2, 1) == Fetch(1)
    ensures Scroll(SQL_FETCH_NEXT, 0, 1, 1) == NoData(1)
    ensures Scroll(SQL_FETCH_PRIOR, 0, 1, 1) == Fetch(0)
  {
  }

  /** What the SQL_C_CHAR/SQL_C_BINARY branch of `getrowdata` returns for a non-NULL value:
      the return code, the length it stores through `lenp` (None: left alone), the text
      the caller's buffer receives before its NUL (None: no text is modelled), and the new
      offset of the column. */
  datatype Chunk = Chunk(rc: int, lenp: Option<int>, text: Option<string>, offs: int)

  /** The branch for value `v`, stored offset `offs`, buffer length `len`, a caller buffer
      present or not, and `chunked` when called from `SQLGetData` with column bindings
      (sqliteodbc.c:4898-4934). A caller buffer that is absent receives nothing. An empty
      value skips the SQL_NO_DATA test, so an offset left above 0 makes the remaining
      length `dlen` negative and the copy start past the terminator; what that copy reads
      is not modelled (`text` is None). */
  function CharChunk(v: string, offs: int, len: int, hasBuffer: bool, chunked: bool): (c: Chunk)
    requires 0 <= len && 0 <= offs
    ensures c.rc == SQL_NO_DATA <==> chunked && len != 0 && v != [] && offs >= |v|
    ensures c.rc == SQL_NO_DATA ==> c.offs == 0 && c.lenp.None? && c.text.None?
    ensures c.text.Some? ==> hasBuffer && 1 <= len && |c.text.value| <= len - 1
    ensures chunked && len >= 2 && offs < |v| && hasBuffer ==>
              offs < c.offs == offs + Min(len - 1, |v| - offs) <= |v| &&
              c.text == Some(v[offs..c.offs]) &&
              (c.rc == SQL_SUCCESS_WITH_INFO <==> c.offs < |v|)
    ensures chunked && len >= 1 && offs < |v| && !hasBuffer ==>
              c == Chunk(SQL_SUCCESS, Some(|v| - offs), None, |v|)
    ensures chunked && len >= 1 && v == [] && offs > 0 ==>
              c.text.None? && c.lenp == Some(-offs) &&
              (offs == -SQL_NO_TOTAL ==> c.rc == SQL_SUCCESS_WITH_INFO && c.offs == offs + len - 1) &&
              (offs != -SQL_NO_TOTAL ==> c.rc == SQL_SUCCESS && c.offs == 0)
    ensures !chunked ==> c.offs == offs && c.rc == SQL_SUCCESS
  {
    if chunked && len != 0 && v != [] && offs >= |v| then Chunk(SQL_NO_DATA, None, None, 0)
    else
      var o := if chunked && len != 0 then offs else 0;
      var dlen := |v| - o;
      var k := Min(len - 1, dlen);
      var text := if hasBuffer && len >= 1 && dlen >= 0 then Some(v[o..o + k]) else None;
      var lenp := if !hasBuffer || len < 1 then dlen
                  else if k == len - 1 && k != dlen then SQL_NO_TOTAL else k;
      if chunked && len != 0 then
        if lenp == SQL_NO_TOTAL then Chunk(SQL_SUCCESS_WITH_INFO, Some(lenp), text, offs + len - 1)
        else Chunk(SQL_SUCCESS, Some(lenp), text, offs + lenp)
      else Chunk(SQL_SUCCESS, Some(lenp), text, offs)
  }

  /** As written, an empty value whose offset was left at 1 is reported as SQL NULL: the
      length `min(len - 1, -1)` is SQL_NULL_DATA. From offset 0 it reads back as "". */
  lemma StaleOffsetAsWritten(len: int)
    requires len >= 1
    ensures CharChunk("", 1, len, true, true) == Chunk(SQL_SUCCESS, Some(SQL_NULL_DATA), None, 0)
    ensures CharChunk("", 0, len, true, true) == Chunk(SQL_SUCCESS, Some(0), Some(""), 0)
  {
  }

  /** The size of `valdummy`, the scratch buffer `getrowdata` uses when the caller has none. */
  const ScratchSize := 16

  /** As written (sqliteodbc.c:4922-4924): the index at which the NUL terminator is stored
      when `len` is non-zero; without a caller buffer the store goes to `valdummy`. */
  function TerminatorAsWritten(hasBuffer: bool, len: int): Option<(bool, int)>
  {
    if len != 0 then Some((!hasBuffer, len - 1)) else None
  }

  /** A column bound with a NULL value pointer and a 100-byte length (SQLBindCol with
      TargetValuePtr NULL) makes the fetch store a NUL 84 bytes past `valdummy`. */
  lemma ScratchOverrunAsWritten()
    ensures TerminatorAsWritten(false, 100) == Some((true, 99)) && 99 >= ScratchSize
    ensures CharChunk("abc", 0, 100, false, false).text.None?
  {
  }

  /** The successive pieces `SQLGetData` returns for `v` with a buffer of `len` bytes,
      starting from offset `offs`, until it reports SQL_NO_DATA. */
  function Pieces(v: string, offs: nat, len: int): seq<string>
    requires len >= 2 && offs <= |v| && v != []
    decreases |v| - offs
  {
    var c := CharChunk(v, offs, len, true, true);
    if c.rc == SQL_NO_DATA then [] else [c.text.value] + Pieces(v, c.offs, len)
  }

  function Concat(ps: seq<string>): string {
    if ps == [] then "" else ps[0] + Concat(ps[1..])
  }

  /** Reading a value piece by piece returns all of it, in order, each piece but the
      last filling the buffer. */
  lemma {:induction false} PiecesReassemble(v: string, offs: nat, len: int)
    requires len >= 2 && offs <= |v| && v != []
    ensures Concat(Pieces(v, offs, len)) == v[offs..]
    ensures forall i :: 0 <= i < |Pieces(v, offs, len)| - 1 ==> |Pieces(v, offs, len)[i]| == len - 1
    decreases |v| - offs
  {
    var c := CharChunk(v, offs, len, true, true);
    if c.rc != SQL_NO_DATA {
      PiecesReassemble(v, c.offs, len);
      var t := c.text.value;
      assert t == v[offs..c.offs];
      assert v[offs..] == t + v[c.offs..];
      var ps := Pieces(v, offs, len);
      assert ps == [t] + Pieces(v, c.offs, len);
      if c.offs < |v| {
        assert |t| == len - 1;
      } else {
        assert Pieces(v, c.offs, len) == [];
      }
    }
  }

  /** An empty value never reports SQL_NO_DATA: every call succeeds with length 0. */
  lemma EmptyValueNeverEnds(len: int)
    requires len >= 1
    ensures CharChunk("", 0, len, true, true) == Chunk(SQL_SUCCESS, Some(0), Some(""), 0)
  {
  }
}
