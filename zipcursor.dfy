/** The cursor of the "zipfile" virtual table of zipfile.c: `zip_vtab_filter`, which turns
    an EQ or MATCH constraint on the path column into the list of matching entries,
    `zip_vtab_next`, `zip_vtab_eof`, `zip_vtab_rowid` and the row lookup of
    `zip_vtab_column`. The table is the list of entry names in table order. */
module ZipCursor {
  import opened CStrings
  import opened ZipDir

  const SQLITE_OK := 0
  const SQLITE_ERROR := 1
  const STAR: byte := 42

  /** The memcmp order of two byte strings of one length: -1, 0 or 1. */
  function MemCmp(a: seq<byte>, b: seq<byte>): (d: int)
    requires |a| == |b|
    ensures d == 0 <==> a == b
    ensures -1 <= d <= 1
    decreases |a|
  {
    if |a| == 0 then 0
    else if a[0] < b[0] then -1
    else if a[0] > b[0] then 1
    else
      assert a == [a[0]] + a[1..] && b == [b[0]] + b[1..];
      MemCmp(a[1..], b[1..])
  }

  /** SQLite's BINARY collation: byte by byte, a proper prefix first. */
  predicate Le(a: seq<byte>, b: seq<byte>)
    decreases |a|
  {
    |a| == 0 || (|b| > 0 && (a[0] < b[0] || (a[0] == b[0] && Le(a[1..], b[1..]))))
  }

  /** The names in the order of `ORDER BY path`, as the table is once sorted. */
  predicate Sorted(names: seq<seq<byte>>) {
    forall i, j :: 0 <= i < j < |names| ==> Le(names[i], names[j])
  }

  lemma {:induction false} LeAntisymmetric(a: seq<byte>, b: seq<byte>)
    ensures Le(a, b) && Le(b, a) ==> a == b
    decreases |a|
  {
    if |a| > 0 && |b| > 0 && a[0] == b[0] {
      LeAntisymmetric(a[1..], b[1..]);
      assert a == [a[0]] + a[1..] && b == [b[0]] + b[1..];
    }
  }

  /** Once an entry's first |key| bytes compare above `key`, no later entry in sorted
      order starts with `key`. */
  lemma {:induction false} PastKey(a: seq<byte>, b: seq<byte>, key: seq<byte>)
    requires Le(a, b) && |key| <= |a| && MemCmp(a[..|key|], key) > 0
    ensures !(|key| <= |b| && b[..|key|] == key)
    decreases |key|
  {
    var L := |key|;
    if L <= |b| && b[..L] == key {
      assert a[..L][0] == a[0] && b[..L][0] == b[0];
      if a[0] == b[0] {
        assert a[..L][1..] == a[1..][..L - 1];
        assert b[1..][..L - 1] == b[..L][1..];
        PastKey(a[1..], b[1..], key[1..]);
      }
    }
  }

  /** Between two equal names in sorted order every name is the same. */
  lemma SortedRun(names: seq<seq<byte>>, j: nat, k: nat, i: nat)
    requires Sorted(names) && j < k < i < |names|
    ensures names[j] == names[i] ==> names[k] == names[j]
  {
    LeAntisymmetric(names[k], names[j]);
  }

  /** An EQ constraint (the whole name) or a MATCH pattern "prefix*" (its prefix). */
  datatype Query = Query(isMatch: bool, key: seq<byte>)

  predicate Matches(q: Query, name: seq<byte>) {
    if q.isMatch then |q.key| <= |name| && name[..|q.key|] == q.key else name == q.key
  }

  function Zeros(n: nat): (z: seq<nat>)
    ensures |z| == n && forall i :: 0 <= i < n ==> z[i] == 0
  {
    seq(n, _ => 0)
  }

  /** What the scan of `zip_vtab_filter` (zipfile.c:657-677) does at entry `k`, `found`
      telling whether an earlier entry matched: a MATCH skips names shorter than the
      prefix; an EQ skips names of another length, or stops at one once something
      matched; otherwise the first |key| bytes are compared, and the scan marks the entry
      when they are equal and stops when they are above the key. */
  datatype StepKind = Skip | Hit | Stop

  function Step(names: seq<seq<byte>>, q: Query, k: nat, found: bool): (s: StepKind)
    requires k < |names|
    ensures s == Hit <==> Matches(q, names[k])
  {
    var name := names[k];
    var L := |q.key|;
    if q.isMatch && |name| < L then Skip
    else if !q.isMatch && |name| != L then (if found then Stop else Skip)
    else
      assert !q.isMatch ==> name[..L] == name;
      var d := MemCmp(name[..L], q.key);
      if d == 0 then Hit else if d > 0 then Stop else Skip
  }

  /** The flags the scan leaves for entries `k` on. */
  function Scan(names: seq<seq<byte>>, q: Query, k: nat, found: bool): (r: seq<nat>)
    requires k <= |names|
    ensures |r| == |names| - k
    ensures forall i :: 0 <= i < |r| ==> r[i] == 0 || r[i] == 1
    ensures forall i :: 0 <= i < |r| && r[i] != 0 ==> Matches(q, names[k + i])
    decreases |names| - k
  {
    if k == |names| then []
    else
      match Step(names, q, k, found)
      case Skip => [0] + Scan(names, q, k + 1, found)
      case Hit => [1] + Scan(names, q, k + 1, true)
      case Stop => Zeros(|names| - k)
  }

  /** On sorted names a stop loses nothing: no later entry matches. */
  lemma StopIsFinal(names: seq<seq<byte>>, q: Query, k: nat, found: bool, i: nat)
    requires Sorted(names) && k < i < |names| && Step(names, q, k, found) == Stop
    requires found && !q.isMatch ==> exists j :: 0 <= j < k && names[j] == q.key
    ensures !Matches(q, names[i])
  {
    var L := |q.key|;
    if !q.isMatch && |names[k]| != L {
      var j :| 0 <= j < k && names[j] == q.key;
      SortedRun(names, j, k, i);
    } else {
      PastKey(names[k], names[i], q.key);
      assert |names[i]| == L ==> names[i][..L] == names[i];
    }
  }

  /** On sorted names the early stops lose nothing: every matching entry is flagged. */
  lemma {:induction false} ScanComplete(names: seq<seq<byte>>, q: Query, k: nat, found: bool, i: nat)
    requires Sorted(names) && k <= i < |names|
    requires found && !q.isMatch ==> exists j :: 0 <= j < k && names[j] == q.key
    ensures Matches(q, names[i]) ==> Scan(names, q, k, found)[i - k] == 1
    decreases i - k
  {
    if i > k {
      match Step(names, q, k, found)
      case Skip =>
        ScanComplete(names, q, k + 1, found, i);
      case Hit =>
        assert !q.isMatch ==> names[k] == q.key;
        ScanComplete(names, q, k + 1, true, i);
      case Stop =>
        StopIsFinal(names, q, k, found, i);
    }
  }

  /** The indices of the non-zero flags, in order: the compaction loop of
      `zip_vtab_filter` (zipfile.c:679-684). */
  function Selected(fl: seq<nat>): (r: seq<nat>)
    ensures forall j :: 0 <= j < |r| ==> r[j] < |fl| && fl[r[j]] != 0
    ensures forall i :: 0 <= i < |fl| && fl[i] != 0 ==> i in r
    ensures forall j, k :: 0 <= j < k < |r| ==> r[j] < r[k]
    ensures |r| <= |fl|
    decreases |fl|
  {
    if |fl| == 0 then []
    else
      var rest := Selected(fl[..|fl| - 1]);
      if fl[|fl| - 1] != 0 then rest + [|fl| - 1] else rest
  }

  /** The argument of `zip_vtab_filter` as classified by its first checks
      (zipfile.c:629-650). */
  datatype Constraint = NoConstraint | NullArgument | EmptyKey | BadPattern | Keyed(q: Query)

  /** The bytes of `s` up to its first NUL, as `strrchr` sees them. */
  function UpToNul(s: seq<byte>): (r: seq<byte>)
    ensures |r| <= |s| && r == s[..|r|] && 0 !in r
    ensures |r| < |s| ==> s[|r|] == 0
  {
    if |s| == 0 || s[0] == 0 then [] else [s[0]] + UpToNul(s[1..])
  }

  /** idxNum 1 is EQ, a larger idxNum MATCH; a MATCH pattern must end in its last '*'. */
  function Classify(idxNum: int, argc: int, eq: Option<seq<byte>>): (c: Constraint)
    ensures c.Keyed? ==> eq.Some?
    ensures c.Keyed? && c.q.isMatch ==> |c.q.key| < |eq.value| && eq.value[..|c.q.key| + 1] == c.q.key + [STAR]
    ensures c.Keyed? && !c.q.isMatch ==> c.q.key == eq.value && c.q.key != []
    ensures (idxNum == 0 || argc <= 0) <==> c == NoConstraint
  {
    if idxNum == 0 || argc <= 0 then NoConstraint
    else if eq.None? then NullArgument
    else if idxNum > 1 then
      var s := UpToNul(eq.value);
      if |s| == 0 || s[|s| - 1] != STAR then BadPattern
      else
        assert s == s[..|s| - 1] + [STAR];
        Keyed(Query(true, s[..|s| - 1]))
    else if |eq.value| == 0 then EmptyKey
    else Keyed(Query(false, eq.value))
  }

  /** What a filter leaves in the cursor: the return code, `nmatches` and the
      compacted `matches`. */
  datatype Outcome = Outcome(rc: int, nmatches: int, rows: seq<nat>)

  /** `zip_vtab_filter` as written: a constraint that matches nothing leaves `nmatches`
      at 0, the value that means "no constraint". */
  function FilterOutcomeAsWritten(names: seq<seq<byte>>, c: Constraint): (o: Outcome)
  {
    match c
    case NoConstraint => Outcome(SQLITE_OK, 0, [])
    case NullArgument => Outcome(SQLITE_OK, -1, [])
    case EmptyKey => Outcome(SQLITE_OK, -1, [])
    case BadPattern => Outcome(SQLITE_ERROR, 0, [])
    case Keyed(q) =>
      var rows := Selected(Scan(names, q, 0, false));
      Outcome(SQLITE_OK, |rows|, rows)
  }

  /** `zip_vtab_filter` with an empty match list reported as no rows. */
  function FilterOutcome(names: seq<seq<byte>>, c: Constraint): (o: Outcome)
    ensures o.nmatches <= |o.rows| && o.nmatches >= -1 && |o.rows| <= |names|
    ensures o.nmatches > 0 ==> o.nmatches == |o.rows|
    ensures o.rc == SQLITE_ERROR <==> c == BadPattern
    ensures c.Keyed? ==> o.nmatches != 0
  {
    var w := FilterOutcomeAsWritten(names, c);
    if c.Keyed? && w.nmatches == 0 then Outcome(SQLITE_OK, -1, []) else w
  }

  function Range(n: nat): (r: seq<nat>)
    ensures |r| == n && forall i :: 0 <= i < n ==> r[i] == i
  {
    seq(n, i => i)
  }

  /** The entries a cursor returns, in order, given `nmatches` and `matches`
      (`zip_vtab_eof`, zipfile.c:697-710): none when `nmatches` is negative, every entry
      when it is 0, the match list otherwise. */
  function RowsOf(n: nat, nmatches: int, matches: seq<nat>): (r: seq<nat>)
    requires nmatches <= |matches|
  {
    if nmatches < 0 then [] else if nmatches == 0 then Range(n) else matches[..nmatches]
  }

  /** With an EQ or MATCH constraint on sorted names, the rows returned are exactly the
      matching entries, in table order. */
  lemma FilterReturnsMatches(names: seq<seq<byte>>, q: Query)
    requires Sorted(names)
    ensures var o := FilterOutcome(names, Keyed(q)); var rows := RowsOf(|names|, o.nmatches, o.rows);
            (forall i :: 0 <= i < |names| ==> (i in rows <==> Matches(q, names[i]))) &&
            (forall j, k :: 0 <= j < k < |rows| ==> rows[j] < rows[k])
  {
    var sel := Selected(Scan(names, q, 0, false));
    forall i | 0 <= i < |names|
      ensures i in sel <==> Matches(q, names[i])
    {
      SelectedIsMatch(names, q, i);
    }
    FilterRows(names, q);
  }

  /** The rows of a keyed filter are the compacted match list, even when it is empty. */
  lemma FilterRows(names: seq<seq<byte>>, q: Query)
    ensures var o := FilterOutcome(names, Keyed(q));
            RowsOf(|names|, o.nmatches, o.rows) == Selected(Scan(names, q, 0, false))
  {
    var sel := Selected(Scan(names, q, 0, false));
    if sel != [] {
      assert sel[..|sel|] == sel;
    }
  }

  /** Entry `i` is in the compacted match list exactly when its name matches. */
  lemma SelectedIsMatch(names: seq<seq<byte>>, q: Query, i: nat)
    requires Sorted(names) && i < |names|
    ensures i in Selected(Scan(names, q, 0, false)) <==> Matches(q, names[i])
  {
    var fl := Scan(names, q, 0, false);
    ScanComplete(names, q, 0, false, i);
    if i in Selected(fl) {
      assert fl[i] != 0;
    }
  }

  /** As written, an EQ constraint that no entry satisfies returns every entry: the
      constraint is marked `omit` in `zip_vtab_bestindex` (zipfile.c:520-538), so SQLite
      does not filter the rows again. The corrected filter returns none. */
  lemma NoMatchReturnsAllAsWritten(names: seq<seq<byte>>, key: seq<byte>)
    requires key != [] && |names| > 0 && key !in names
    ensures var o := FilterOutcomeAsWritten(names, Keyed(Query(false, key)));
            RowsOf(|names|, o.nmatches, o.rows) == Range(|names|)
    ensures var o := FilterOutcome(names, Keyed(Query(false, key)));
            RowsOf(|names|, o.nmatches, o.rows) == []
  {
    var fl := Scan(names, Query(false, key), 0, false);
    assert forall i :: 0 <= i < |fl| ==> names[i] in names && fl[i] == 0;
    NoneSelected(fl);
  }

  lemma {:induction false} NoneSelected(fl: seq<nat>)
    requires forall i :: 0 <= i < |fl| ==> fl[i] == 0
    ensures Selected(fl) == []
  {
    if |fl| > 0 {
      NoneSelected(fl[..|fl| - 1]);
    }
  }

  /** The flag pass of `zip_vtab_filter` on the zeroed array `m`. */
  method ScanFlags(names: seq<seq<byte>>, q: Query, m: array<nat>)
    requires m.Length == |names| && forall j :: 0 <= j < m.Length ==> m[j] == 0
    modifies m
    ensures m[..] == Scan(names, q, 0, false)
  {
    var k := 0;
    var found := false;
    ghost var done: seq<nat> := [];
    while k < m.Length
      invariant 0 <= k <= m.Length && done == m[..k]
      invariant forall j :: k <= j < m.Length ==> m[j] == 0
      invariant Scan(names, q, 0, false) == done + Scan(names, q, k, found)
    {
      var step := EntryStep(names, q, k, found);
      if step == Stop {
        ScanStops(names, q, k, found);
        Rest(m, k);
        return;
      }
      var x := if step == Hit then 1 else 0;
      ScanMoves(names, q, k, found, done, x);
      m[k] := x;
      found := found || x == 1;
      done := done + [x];
      k := k + 1;
    }
    assert m[..] == m[..k];
  }

  /** The tests `zip_vtab_filter` makes on entry `k`, in its order. */
  method EntryStep(names: seq<seq<byte>>, q: Query, k: nat, found: bool) returns (s: StepKind)
    requires k < |names|
    ensures s == Step(names, q, k, found)
  {
    var len := |names[k]|;
    var L := |q.key|;
    if q.isMatch {
      if len < L {
        return Skip;
      }
    } else if len != L {
      return if found then Stop else Skip;
    }
    var d := MemCmp(names[k][..L], q.key);
    if d == 0 {
      return Hit;
    } else if d > 0 {
      return Stop;
    }
    return Skip;
  }

  /** An entry the scan skips or marks adds its flag and moves on. */
  lemma ScanMoves(names: seq<seq<byte>>, q: Query, k: nat, found: bool, pre: seq<nat>, x: nat)
    requires k < |names|
    requires x == 0 ==> Step(names, q, k, found) == Skip
    requires x == 1 ==> Step(names, q, k, found) == Hit
    requires x <= 1
    ensures pre + Scan(names, q, k, found)
      == (pre + [x]) + Scan(names, q, k + 1, found || x == 1)
  {
  }

  /** An entry at which the scan stops leaves every later flag zero. */
  lemma ScanStops(names: seq<seq<byte>>, q: Query, k: nat, found: bool)
    requires k < |names| && Step(names, q, k, found) == Stop
    ensures Scan(names, q, k, found) == Zeros(|names| - k)
  {
  }

  /** The untouched tail of a zeroed array. */
  lemma Rest(m: array<nat>, k: nat)
    requires k <= m.Length && forall j :: k <= j < m.Length ==> m[j] == 0
    ensures m[..] == m[..k] + Zeros(m.Length - k)
  {
    assert forall j :: 0 <= j < m.Length ==> m[..][j] == (m[..k] + Zeros(m.Length - k))[j];
  }

  lemma SelectedSnoc(fl: seq<nat>, i: nat)
    requires i < |fl|
    ensures Selected(fl[..i + 1]) == Selected(fl[..i]) + (if fl[i] != 0 then [i] else [])
  {
    assert fl[..i + 1][..i] == fl[..i];
  }

  /** The compaction pass: the indices of the set flags moved to the front of `m`, in
      place. */
  method Compact(m: array<nat>) returns (k: nat)
    modifies m
    ensures k == |Selected(old(m[..]))| && m[..k] == Selected(old(m[..]))
  {
    ghost var fl := m[..];
    k := 0;
    var i := 0;
    while i < m.Length
      invariant k <= i <= m.Length
      invariant forall j :: i <= j < m.Length ==> m[j] == fl[j]
      invariant m[..k] == Selected(fl[..i])
    {
      SelectedSnoc(fl, i);
      if m[i] != 0 {
        ghost var pre := m[..k];
        m[k] := i;
        assert m[..k + 1] == pre + [i];
        k := k + 1;
      }
      i := i + 1;
    }
    assert fl[..m.Length] == fl;
  }

  /** A cursor over the sorted or unsorted entry names of one opened archive. */
  class Cursor {
    const names: seq<seq<byte>>
    var pos: int
    var nmatches: int
    var matches: array?<nat>

    ghost predicate Valid()
      reads this, matches
    {
      nmatches >= -1 &&
      (nmatches > 0 ==> matches != null && nmatches <= matches.Length)
    }

    /** The entries this cursor returns, in order. */
    ghost function Visible(): seq<nat>
      reads this, matches
      requires Valid()
    {
      if nmatches <= 0 then RowsOf(|names|, nmatches, [])
      else RowsOf(|names|, nmatches, matches[..nmatches])
    }

    /** `zip_vtab_open` (zipfile.c:555-569). */
    constructor(z: ZipFile)
      requires WellFormed(z)
      ensures names == seq(|z.entries|, k requires 0 <= k < |z.entries| => PathAt(z.data, z.entries[k]))
      ensures pos == -1 && nmatches == 0 && matches == null && Valid()
    {
      names := seq(|z.entries|, k requires 0 <= k < |z.entries| => PathAt(z.data, z.entries[k]));
      pos := -1;
      nmatches := 0;
      matches := null;
    }

    /** `zip_vtab_next` (zipfile.c:595-604). */
    method Next()
      modifies `pos
      ensures pos == if nmatches >= 0 then old(pos) + 1 else old(pos)
    {
      if nmatches >= 0 {
        pos := pos + 1;
      }
    }

    /** The match list of a keyed constraint: the flags pass, then the compaction pass,
        with -1 for an empty list. */
    static method MatchList(names: seq<seq<byte>>, q: Query) returns (m: array<nat>, n: int)
      ensures fresh(m)
      ensures n == FilterOutcome(names, Keyed(q)).nmatches && n <= m.Length
      ensures n > 0 ==> m[..n] == FilterOutcome(names, Keyed(q)).rows
    {
      m := new nat[|names|](_ => 0);
      ScanFlags(names, q, m);
      var k := Compact(m);
      n := if k == 0 then -1 else k;
    }

    /** `zip_vtab_filter` with the empty-result correction: on success the cursor is on
        its first row and returns the rows `Filter` selects. */
    method Filter(idxNum: int, argc: int, eq: Option<seq<byte>>) returns (rc: int)
      modifies this
      ensures Valid()
      ensures var o := FilterOutcome(names, Classify(idxNum, argc, eq));
              rc == o.rc && nmatches == o.nmatches &&
              (nmatches > 0 ==> matches[..nmatches] == o.rows)
      ensures rc == SQLITE_OK ==> pos == if nmatches >= 0 then 0 else -1
      ensures rc != SQLITE_OK ==> pos == old(pos)
    {
      var c := Classify(idxNum, argc, eq);
      matches := null;
      nmatches := 0;
      if c == BadPattern {
        return SQLITE_ERROR;
      }
      if c == NullArgument || c == EmptyKey {
        nmatches := -1;
      } else if c.Keyed? {
        matches, nmatches := MatchList(names, c.q);
      }
      pos := -1;
      Next();
      rc := SQLITE_OK;
    }

    /** `zip_vtab_eof` (zipfile.c:697-710): past the last visible row. */
    predicate Eof()
      reads this
    {
      if nmatches < 0 then true
      else if nmatches != 0 then pos >= nmatches
      else pos >= |names|
    }

    /** `zip_vtab_rowid` (zipfile.c:866-879), for a row that is not past the end. */
    function Rowid(): (r: int)
      reads this, matches
      requires Valid() && (nmatches > 0 && pos >= 0 ==> pos < nmatches)
    {
      if nmatches < 0 then -1
      else if pos >= 0 && nmatches > 0 then matches[pos]
      else pos
    }

    /** The row `zip_vtab_column` reads (zipfile.c:720-744): none out of bounds. */
    function Row(): (r: Option<nat>)
      reads this, matches
      requires Valid()
    {
      if nmatches != 0 then
        if pos < 0 || pos >= nmatches then None else Some(matches[pos])
      else if pos < 0 || pos >= |names| then None
      else Some(pos)
    }

    /** Eof, Rowid and the column row all agree with the visible rows. */
    lemma CursorAgrees()
      requires Valid() && pos >= -1 && (nmatches >= 0 ==> pos >= 0)
      ensures Eof() <==> pos >= |Visible()| || nmatches < 0
      ensures Row().Some? <==> 0 <= pos < |Visible()|
      ensures Row().Some? ==> Row().value == Visible()[pos] && Rowid() == Row().value
    {
    }
  }
}
