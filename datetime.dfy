/** The literal parsers `str2date`, `str2time` and `str2timestamp` of sqliteodbc.c, which
    read ODBC DATE, TIME and TIMESTAMP values out of the text SQLite stores. Each one either
    reads a single run of digits at fixed positions ("YYYYMMDD"), or walks the text number
    by number with `strtol`, using the character after each number to decide which field
    it fills. */
module DateTime {
  import opened CStrings

  datatype Date = Date(year: int, month: int, day: int)
  datatype Time = Time(hour: int, minute: int, second: int)
  datatype Timestamp = Timestamp(year: int, month: int, day: int,
                                 hour: int, minute: int, second: int, fraction: int)

  /** Three fields filled in order by the separated-form loops of `str2date` and `str2time`. */
  datatype Fields3 = Fields3(f0: int, f1: int, f2: int)

  const NoFields := Fields3(0, 0, 0)
  const ZeroTimestamp := Timestamp(0, 0, 0, 0, 0, 0, 0)

  lemma {:induction false} NonDigitEndOfPrefix(s: string, pre: string)
    requires |pre| <= |s| && s[..|pre|] == pre && NoDigits(pre)
    requires |pre| < |s| && IsDigit(s[|pre|])
    ensures NonDigitEnd(s, 0) == |pre|
  {
    NonDigitEndFrom(s, 0, |pre|);
  }

  lemma {:induction false} NonDigitEndFrom(s: string, i: nat, e: nat)
    requires i <= e < |s| && IsDigit(s[e])
    requires forall j :: i <= j < e ==> !IsDigit(s[j])
    ensures NonDigitEnd(s, i) == e
    decreases e - i
  {
    if i < e { NonDigitEndFrom(s, i + 1, e); }
  }

  /** `strtol` on a 2- or 4-digit copy made with `strncpy`: plain decimal value. */
  function Field(run: string, from: nat, len: nat): int
    requires from + len <= |run| && AllDigits(run)
  {
    var f := run[from..from + len];
    assert AllDigits(f) by {
      forall j | 0 <= j < |f| ensures IsDigit(f[j]) { assert f[j] == run[from + j]; }
    }
    DecimalValue(f)
  }

  function SetField(f: Fields3, i: nat, n: int): Fields3 {
    if i == 0 then f.(f0 := n) else if i == 1 then f.(f1 := n) else if i == 2 then f.(f2 := n) else f
  }

  /** Where one turn of the separated-form loop leaves the scan: stopped with a return
      code, or to go on at index `p` with field `i` next. */
  datatype FieldsState = Stop(rc: int, fields: Fields3) | More(p: nat, i: nat, fields: Fields3)

  /** One turn of the `while (i < 3)` loop shared by `str2date` (separators `-` and `/`)
      and `str2time` (separator `:`): read a number with `strtol`; it fills field `i` when
      a separator, the end of the text or the last field follows it, otherwise the fields
      start over at the next digit. */
  function FieldStep(s: CString, seps: string, p: nat, i: nat, f: Fields3): (r: FieldsState)
    requires p <= |s| && i < 3
    ensures r.More? ==> p < r.p <= |s| && r.i < 3
  {
    var (n, q) := StrToL(s, p);
    if q == p && q == |s| then Stop(if i == 0 then -1 else 0, f)
    else if q == |s| || s[q] in seps || i == 2 then
      if i + 1 == 3 then Stop(0, SetField(f, i, n))
      else More(if q < |s| then q + 1 else q, i + 1, SetField(f, i, n))
    else
      More(NonDigitEnd(s, q), 0, f)
  }

  /** The separated-form loop from index `p` with field `i` next: the return code and fields. */
  function Fields(s: CString, seps: string, p: nat, i: nat, f: Fields3): (r: (int, Fields3))
    requires p <= |s| && i < 3
    decreases |s| - p
  {
    match FieldStep(s, seps, p, i, f)
    case Stop(rc, f') => (rc, f')
    case More(p', i', f') => Fields(s, seps, p', i', f')
  }

  /** The whole of `str2date` (sqliteodbc.c:688-746). */
  function ParseDate(s: CString): (int, Date) {
    var p := NonDigitEnd(s, 0);
    var e := DigitEnd(s, p);
    if e - p >= 8 then
      var run := s[p..e];
      (0, Date(Field(run, 0, 4), Field(run, 4, 2), Field(run, 6, 2)))
    else
      var (rc, f) := Fields(s, "-/", p, 0, NoFields);
      (rc, Date(f.f0, f.f1, f.f2))
  }

  /** The whole of `str2time` (sqliteodbc.c:758-816). */
  function ParseTime(s: CString): (int, Time) {
    var p := NonDigitEnd(s, 0);
    var e := DigitEnd(s, p);
    if e - p >= 6 then
      var run := s[p..e];
      (0, Time(Field(run, 0, 2), Field(run, 2, 2), Field(run, 4, 2)))
    else
      var (rc, f) := Fields(s, ":", p, 0, NoFields);
      (rc, Time(f.f0, f.f1, f.f2))
  }

  /** `while (*p && !isdigit(*p)) ++p;` */
  method SkipNonDigits(s: string, i: nat) returns (e: nat)
    requires i <= |s|
    ensures e == NonDigitEnd(s, i)
  {
    e := i;
    while e < |s| && !IsDigit(s[e])
      invariant i <= e <= |s|
      invariant NonDigitEnd(s, i) == NonDigitEnd(s, e)
    {
      e := e + 1;
    }
  }

  /** `while (*q && isdigit(*q)) { ++i; ++q; }` */
  method SkipDigits(s: string, i: nat) returns (e: nat)
    requires i <= |s|
    ensures e == DigitEnd(s, i)
  {
    e := i;
    while e < |s| && IsDigit(s[e])
      invariant i <= e <= |s|
      invariant DigitEnd(s, i) == DigitEnd(s, e)
    {
      e := e + 1;
    }
  }

  /** The `while (i < 3)` loop of `str2date` and `str2time`. */
  method ScanFields(s: CString, seps: string, p0: nat) returns (rc: int, f: Fields3)
    requires p0 <= |s|
    ensures (rc, f) == Fields(s, seps, p0, 0, NoFields)
  {
    var p, i := p0, 0;
    f := NoFields;
    while i < 3
      invariant p <= |s| && i <= 3
      invariant i < 3 ==> Fields(s, seps, p0, 0, NoFields) == Fields(s, seps, p, i, f)
      invariant i == 3 ==> Fields(s, seps, p0, 0, NoFields) == (0, f)
      decreases |s| - p, 3 - i
    {
      ghost var step := FieldStep(s, seps, p, i, f);
      var (n, q) := StrToL(s, p);
      if q == p && q == |s| {
        return if i == 0 then -1 else 0, f;
      }
      if q == |s| || s[q] in seps || i == 2 {
        f := SetField(f, i, n);
        i := i + 1;
        if q < |s| {
          q := q + 1;
        }
      } else {
        i := 0;
        q := SkipNonDigits(s, q);
      }
      p := q;
      assert step == (if i == 3 then Stop(0, f) else More(p, i, f));
    }
    rc := 0;
  }

  method Str2Date(str: CString) returns (rc: int, ds: Date)
    ensures (rc, ds) == ParseDate(str)
  {
    var p := SkipNonDigits(str, 0);
    var q := SkipDigits(str, p);
    if q - p >= 8 {
      var run := str[p..q];
      return 0, Date(Field(run, 0, 4), Field(run, 4, 2), Field(run, 6, 2));
    }
    var f;
    rc, f := ScanFields(str, "-/", p);
    ds := Date(f.f0, f.f1, f.f2);
  }

  method Str2Time(str: CString) returns (rc: int, ts: Time)
    ensures (rc, ts) == ParseTime(str)
  {
    var p := SkipNonDigits(str, 0);
    var q := SkipDigits(str, p);
    if q - p >= 6 {
      var run := str[p..q];
      return 0, Time(Field(run, 0, 2), Field(run, 2, 2), Field(run, 4, 2));
    }
    var f;
    rc, f := ScanFields(str, ":", p);
    ts := Time(f.f0, f.f1, f.f2);
  }

  lemma {:induction false} NonDigitEndNoDigits(s: string, i: nat)
    requires i <= |s| && NoDigits(s)
    ensures NonDigitEnd(s, i) == |s|
    decreases |s| - i
  {
    if i < |s| { NonDigitEndNoDigits(s, i + 1); }
  }

  /** A text without any digit is refused with -1 and every field 0. */
  lemma NoDigitDate(s: CString)
    requires NoDigits(s)
    ensures ParseDate(s) == (-1, Date(0, 0, 0))
  {
    NonDigitEndNoDigits(s, 0);
    assert StrToL(s, |s|) == (0, |s|);
  }

  lemma NoDigitTime(s: CString)
    requires NoDigits(s)
    ensures ParseTime(s) == (-1, Time(0, 0, 0))
  {
    NonDigitEndNoDigits(s, 0);
    assert StrToL(s, |s|) == (0, |s|);
  }

  /** The first digit run of `pre + ds + rest` is `ds`. */
  lemma FirstRun(s: string, pre: string, ds: string, rest: string)
    requires s == pre + ds + rest && NoDigits(pre) && AllDigits(ds) && ds != []
    requires rest == [] || !IsDigit(rest[0])
    ensures NonDigitEnd(s, 0) == |pre| && DigitEnd(s, |pre|) == |pre| + |ds|
    ensures s[|pre|..|pre| + |ds|] == ds
  {
    assert s[..|pre|] == pre;
    assert s[|pre|] == ds[0];
    NonDigitEndOfPrefix(s, pre);
    assert s[|pre|..|pre| + |ds|] == ds;
    if rest != [] { assert s[|pre| + |ds|] == rest[0]; }
    DigitEndOfRun(s, |pre|, ds);
  }

  /** "YYYYMMDD": when the first run of digits has at least 8 of them, year, month and day
      are its digits 0-3, 4-5 and 6-7. */
  lemma CompactDate(s: CString, pre: string, ds: string, rest: string)
    requires s == pre + ds + rest && NoDigits(pre) && AllDigits(ds) && |ds| >= 8
    requires rest == [] || !IsDigit(rest[0])
    ensures ParseDate(s) == (0, Date(DecimalValue(ds[..4]), DecimalValue(ds[4..6]), DecimalValue(ds[6..8])))
  {
    FirstRun(s, pre, ds, rest);
    var run := s[|pre|..|pre| + |ds|];
    assert run[0..4] == ds[..4] && run[4..6] == ds[4..6] && run[6..8] == ds[6..8];
  }

  /** "HHMMSS": a first run of at least 6 digits gives hour, minute and second. */
  lemma CompactTime(s: CString, pre: string, ds: string, rest: string)
    requires s == pre + ds + rest && NoDigits(pre) && AllDigits(ds) && |ds| >= 6
    requires rest == [] || !IsDigit(rest[0])
    ensures ParseTime(s) == (0, Time(DecimalValue(ds[..2]), DecimalValue(ds[2..4]), DecimalValue(ds[4..6])))
  {
    FirstRun(s, pre, ds, rest);
    var run := s[|pre|..|pre| + |ds|];
    assert run[0..2] == ds[..2] && run[2..4] == ds[2..4] && run[4..6] == ds[4..6];
  }

  /** A run of digits followed by a separator fills field `i` and the scan resumes, with
      field `j = i + 1` next, at `next`, just past the separator. */
  lemma FieldThenSeparator(s: CString, seps: string, p: nat, i: nat, f: Fields3, ds: string,
                           next: nat, j: nat, f': Fields3)
    requires i < 2 && p + |ds| < |s| && s[p..p + |ds|] == ds && AllDigits(ds) && ds != []
    requires s[p + |ds|] in seps && !IsDigit(s[p + |ds|])
    requires next == p + |ds| + 1 && j == i + 1 && f' == SetField(f, i, DecimalValue(ds))
    ensures Fields(s, seps, p, i, f) == Fields(s, seps, next, j, f')
  {
    StrToLOfRun(s, p, ds);
  }

  /** The third run of digits fills the last field and ends the scan. */
  lemma LastField(s: CString, seps: string, p: nat, f: Fields3, ds: string)
    requires p + |ds| == |s| && s[p..p + |ds|] == ds && AllDigits(ds) && ds != []
    ensures Fields(s, seps, p, 2, f) == (0, f.(f2 := DecimalValue(ds)))
  {
    StrToLOfRun(s, p, ds);
  }

  lemma MiddleSlice(x: string, y: string, z: string)
    ensures (x + y + z)[|x|..|x| + |y|] == y
    ensures |x + y + z| == |x| + |y| + |z|
  {
  }

  /** Where the three runs and the two separators of `a + [c1] + b + [c2] + c` lie. */
  lemma Pieces(s: string, a: string, c1: char, b: string, c2: char, c: string)
    requires s == a + [c1] + b + [c2] + c
    ensures |s| == |a| + |b| + |c| + 2
    ensures s[0..|a|] == a && s[|a| + 1..|a| + 1 + |b|] == b && s[|a| + |b| + 2..|a| + |b| + 2 + |c|] == c
    ensures s[|a|] == c1 && s[|a| + 1 + |b|] == c2
  {
    MiddleSlice([], a, [c1] + b + [c2] + c);
    assert s == [] + a + ([c1] + b + [c2] + c);
    MiddleSlice(a + [c1], b, [c2] + c);
    assert s == (a + [c1]) + b + ([c2] + c);
    MiddleSlice(a + [c1] + b + [c2], c, []);
    assert s == (a + [c1] + b + [c2]) + c + [];
  }

  /** Three digit runs joined by separators are read as the three fields, in order. */
  lemma SeparatedFields(s: CString, seps: string, a: string, c1: char, b: string, c2: char, c: string)
    requires s == a + [c1] + b + [c2] + c
    requires AllDigits(a) && AllDigits(b) && AllDigits(c) && a != [] && b != [] && c != []
    requires c1 in seps && c2 in seps && !IsDigit(c1) && !IsDigit(c2)
    ensures Fields(s, seps, 0, 0, NoFields) == (0, Fields3(DecimalValue(a), DecimalValue(b), DecimalValue(c)))
  {
    Pieces(s, a, c1, b, c2, c);
    SeparatedFieldsAt(s, seps, a, b, c);
  }

  lemma SeparatedFieldsAt(s: CString, seps: string, a: string, b: string, c: string)
    requires |s| == |a| + |b| + |c| + 2
    requires s[0..|a|] == a && s[|a| + 1..|a| + 1 + |b|] == b && s[|a| + |b| + 2..|a| + |b| + 2 + |c|] == c
    requires s[|a|] in seps && s[|a| + 1 + |b|] in seps && !IsDigit(s[|a|]) && !IsDigit(s[|a| + 1 + |b|])
    requires AllDigits(a) && AllDigits(b) && AllDigits(c) && a != [] && b != [] && c != []
    ensures Fields(s, seps, 0, 0, NoFields) == (0, Fields3(DecimalValue(a), DecimalValue(b), DecimalValue(c)))
  {
    var i1 := |a| + 1;
    var i2 := i1 + |b| + 1;
    var f1 := Fields3(DecimalValue(a), 0, 0);
    var f2 := Fields3(DecimalValue(a), DecimalValue(b), 0);
    LastField(s, seps, i2, f2, c);
    FieldThenSeparator(s, seps, i1, 1, f1, b, i2, 2, f2);
    FieldThenSeparator(s, seps, 0, 0, NoFields, a, i1, 1, f1);
  }

  /** "YYYY-MM-DD" and "YYYY/MM/DD" (the two separators may differ). */
  lemma SeparatedDate(s: CString, a: string, c1: char, b: string, c2: char, c: string)
    requires s == a + [c1] + b + [c2] + c
    requires AllDigits(a) && AllDigits(b) && AllDigits(c) && 0 < |a| < 8 && b != [] && c != []
    requires (c1 == '-' || c1 == '/') && (c2 == '-' || c2 == '/')
    ensures ParseDate(s) == (0, Date(DecimalValue(a), DecimalValue(b), DecimalValue(c)))
  {
    Pieces(s, a, c1, b, c2, c);
    SeparatedFields(s, "-/", a, c1, b, c2, c);
    assert s[0] == a[0];
    DigitEndOfRun(s, 0, a);
  }

  /** "HH:MM:SS". */
  lemma SeparatedTime(s: CString, a: string, b: string, c: string)
    requires s == a + ":" + b + ":" + c
    requires AllDigits(a) && AllDigits(b) && AllDigits(c) && 0 < |a| < 6 && b != [] && c != []
    ensures ParseTime(s) == (0, Time(DecimalValue(a), DecimalValue(b), DecimalValue(c)))
  {
    Pieces(s, a, ':', b, ':', c);
    SeparatedFields(s, ":", a, ':', b, ':', c);
    assert s[0] == a[0];
    DigitEndOfRun(s, 0, a);
  }

  // ---------------------------------------------------------------- str2timestamp

  /** Bit `b` (1, 2 or 4) of the mask `m` of `str2timestamp`: 1 date read, 2 time read,
      4 fraction read. */
  predicate HasBit(m: nat, b: nat)
    requires b > 0
  {
    (m / b) % 2 == 1
  }

  /** `m | b` for a single bit `b`. */
  function WithBit(m: nat, b: nat): nat
    requires b > 0
  {
    if HasBit(m, b) then m else m + b
  }

  function Pow10(k: nat): (r: nat)
    ensures r >= 1
  {
    if k == 0 then 1 else 10 * Pow10(k - 1)
  }

  /** The state of the `while (m != 7)` loop: position, mask, field index and the
      separator `in` that the current group of numbers uses (NUL for none). */
  datatype TsState = TsState(p: nat, m: nat, i: nat, sep: char, t: Timestamp)

  /** After one turn: stop with a return code, go on, or step past the end of the text. */
  datatype TsNext = TsStop(rc: int) | TsMore(next: TsState) | TsOverrun

  /** What `str2timestamp` yields: a return code and the fields, or (as written only) a read
      beyond the terminating NUL. */
  datatype TsOutcome = Parsed(rc: int, ts: Timestamp) | Overrun

  function SetDatePart(t: Timestamp, i: nat, n: int): Timestamp {
    if i == 0 then t.(year := n) else if i == 1 then t.(month := n) else if i == 2 then t.(day := n) else t
  }

  function SetTimePart(t: Timestamp, i: nat, n: int): Timestamp {
    if i == 0 then t.(hour := n) else if i == 1 then t.(minute := n) else if i == 2 then t.(second := n) else t
  }

  /** The `switch (*q)` taken while no separator is in force: `-` and `/` open a date group
      unless the date is already read, `:` opens a time group unless the time is already
      read, a space or `.` changes nothing, and any other character restarts the field count. */
  function Classify(c: char, m: nat, i: nat): (char, nat) {
    if c == '-' || c == '/' then (if HasBit(m, 1) then ('\0', i) else (c, 0))
    else if c == ':' then (if HasBit(m, 2) then ('\0', i) else (c, 0))
    else if c == ' ' || c == '.' then ('\0', i)
    else ('\0', 0)
  }

  /** The labels `skip` and `skip2`: move to the next digit, with separator `sep`. */
  function Skip(s: string, q: nat, m: nat, i: nat, sep: char, t: Timestamp): TsNext
    requires q <= |s|
  {
    TsMore(TsState(NonDigitEnd(s, q), m, i, sep, t))
  }

  /** `++q` after a date or time field that is not the third. As written the step is taken
      even at the terminating NUL; `guarded` adds the `if (*q)` test of `str2date`. */
  function StepPast(s: string, q: nat, guarded: bool, m: nat, i: nat, sep: char, t: Timestamp): TsNext
    requires q <= |s|
  {
    if q < |s| then TsMore(TsState(q + 1, m, i, sep, t))
    else if guarded then TsMore(TsState(q, m, i, sep, t))
    else TsOverrun
  }

  /** A fraction of `ndig` digits with value `n`, scaled to nanoseconds: `n` is multiplied
      by ten until nine digits are reached. */
  function ScaleFraction(n: int, ndig: int): int {
    if ndig < 9 then n * Pow10(9 - ndig) else n
  }

  /** The end of a turn that stored date field `i` into `t`. */
  function DateTurn(s: string, q: nat, guarded: bool, m: nat, i: nat, sep: char, t: Timestamp): TsNext
    requires q <= |s|
  {
    if i + 1 >= 3 then Skip(s, q, WithBit(m, 1), 0, '\0', t)
    else StepPast(s, q, guarded, m, i + 1, sep, t)
  }

  /** The end of a turn that stored time field `i` into `t`; `c` is the character after
      the number. After the seconds, a `.` or a space opens the fraction, unless the space
      is followed by a date. */
  function TimeTurn(s: string, q: nat, c: char, guarded: bool, m: nat, i: nat, t: Timestamp): TsNext
    requires q <= |s|
  {
    if i + 1 >= 3 then
      var m := WithBit(m, 2);
      if c == '.' then Skip(s, q, m, 0, '.', t)
      else if c == ' ' && q < |s| then
        var e := StrToL(s, q + 1).1;
        if !HasBit(m, 1) && e < |s| && s[e] == '-' then Skip(s, q, m, 0, '\0', t)
        else Skip(s, q, m, 0, '.', t)
      else Skip(s, q, m, 0, '\0', t)
    else StepPast(s, q, guarded, m, i + 1, ':', t)
  }

  /** One turn of the `while (m != 7)` loop of `str2timestamp` (sqliteodbc.c:876-978). */
  function TsStep(s: CString, st: TsState, guarded: bool): (r: TsNext)
    requires st.p <= |s|
    ensures r.TsMore? ==> st.p < r.next.p <= |s|
    ensures r.TsOverrun? ==> !guarded
  {
    var (n, q) := StrToL(s, st.p);
    if q == st.p && q == |s| then TsStop(if st.m < 1 then -1 else 0)
    else
      var c := if q < |s| then s[q] else '\0';
      var (sep, i) := if st.sep != '\0' then (st.sep, st.i) else Classify(c, st.m, st.i);
      if sep == '-' || sep == '/' then DateTurn(s, q, guarded, st.m, i, sep, SetDatePart(st.t, i, n))
      else if sep == ':' then TimeTurn(s, q, c, guarded, st.m, i, SetTimePart(st.t, i, n))
      else if sep == '.' then
        var ndig := q - st.p - (if s[st.p] == '+' || s[st.p] == '-' then 1 else 0);
        Skip(s, q, WithBit(st.m, 4), 0, '\0', st.t.(fraction := ScaleFraction(n, ndig)))
      else Skip(s, q, st.m, i, '\0', st.t)
  }

  /** The `while (m != 7)` loop from state `st`. */
  function TsLoop(s: CString, st: TsState, guarded: bool): (r: TsOutcome)
    requires st.p <= |s|
    ensures r.Overrun? ==> !guarded
    decreases |s| - st.p
  {
    if st.m == 7 then Parsed(0, st.t)
    else match TsStep(s, st, guarded)
      case TsStop(rc) => Parsed(rc, st.t)
      case TsOverrun => Overrun
      case TsMore(next) => TsLoop(s, next, guarded)
  }

  /** `n` zeros. */
  function Zeros(n: nat): (r: string)
    ensures |r| == n && AllDigits(r)
  {
    if n == 0 then [] else Zeros(n - 1) + "0"
  }

  function OctalDigit(c: char): bool {
    '0' <= c <= '7'
  }

  /** First index at or after `i` whose character is not an octal digit. */
  function OctalEnd(s: string, i: nat): (e: nat)
    requires i <= |s|
    ensures i <= e <= |s|
    decreases |s| - i
  {
    if i < |s| && OctalDigit(s[i]) then OctalEnd(s, i + 1) else i
  }

  function OctalValue(ds: string): (v: nat)
    requires forall k :: 0 <= k < |ds| ==> OctalDigit(ds[k])
  {
    if ds == [] then 0
    else
      assert OctalDigit(ds[|ds| - 1]);
      OctalValue(ds[..|ds| - 1]) * 8 + (ds[|ds| - 1] as int - '0' as int)
  }

  /** `strtol(buf, NULL, 0)` on a text of digits: a leading 0 selects octal. */
  function StrToLBase0(ds: string): int
    requires AllDigits(ds)
  {
    if |ds| > 0 && ds[0] == '0' then
      var e := OctalEnd(ds, 0);
      OctalPrefix(ds, 0, e);
      OctalValue(ds[..e])
    else DecimalValue(ds)
  }

  lemma {:induction false} OctalPrefix(s: string, i: nat, e: nat)
    requires i <= |s| && e == OctalEnd(s, i)
    requires forall k :: 0 <= k < i ==> OctalDigit(s[k])
    ensures forall k :: 0 <= k < e ==> OctalDigit(s[..e][k])
    decreases |s| - i
  {
    if i < |s| && OctalDigit(s[i]) {
      OctalPrefix(s, i + 1, e);
    }
  }

  /** The fraction of the all-digit form: the digits after the fourteenth, padded with
      zeros to nine digits, read by `strtol` in base 0 as written (sqliteodbc.c:862-871)
      or in base 10 when `decimal`. */
  function CompactFraction(fd: string, decimal: bool): int
    requires AllDigits(fd)
  {
    var buf := fd + Zeros(PadCount(fd));
    ZerosDigits(fd, PadCount(fd));
    if decimal then DecimalValue(buf) else StrToLBase0(buf)
  }

  /** The number of zeros that pad the fraction digits to nine. */
  function PadCount(fd: string): nat {
    if |fd| < 9 then 9 - |fd| else 0
  }

  /** `str2timestamp` (sqliteodbc.c:829-980); `fixed` selects the corrected reading of
      the fraction and the `if (*q)` guard before each `++q`. */
  function ParseTimestampWith(s: CString, fixed: bool): TsOutcome {
    var p := NonDigitEnd(s, 0);
    var e := DigitEnd(s, p);
    if e - p >= 14 then
      var run := s[p..e];
      var fd := run[14..];
      assert AllDigits(fd) by {
        forall k | 0 <= k < |fd| ensures IsDigit(fd[k]) { assert fd[k] == run[14 + k]; }
      }
      Parsed(0, Timestamp(Field(run, 0, 4), Field(run, 4, 2), Field(run, 6, 2),
                          Field(run, 8, 2), Field(run, 10, 2), Field(run, 12, 2),
                          if |run| > 14 then CompactFraction(fd, fixed) else 0))
    else TsLoop(s, TsState(p, 0, 0, '\0', ZeroTimestamp), fixed)
  }

  function ParseTimestampAsWritten(s: CString): TsOutcome {
    ParseTimestampWith(s, false)
  }

  function ParseTimestamp(s: CString): TsOutcome {
    ParseTimestampWith(s, true)
  }

  /** `while (ndig < 9) { n = n * 10; ++ndig; }` */
  method ScaleUp(n0: int, ndig0: int) returns (n: int)
    ensures n == ScaleFraction(n0, ndig0)
  {
    n := n0;
    var ndig := ndig0;
    while ndig < 9
      invariant ndig0 < 9 ==> ndig <= 9
      invariant ScaleFraction(n0, ndig0) == ScaleFraction(n, ndig)
      decreases 9 - ndig
    {
      n, ndig := n * 10, ndig + 1;
    }
  }

  /** One turn of the `while (m != 7)` loop of `str2timestamp`, with the `if (*q)` guard
      before each `++q`. */
  method TimestampTurn(str: CString, p: nat, m: nat, i: nat, sep: char, tss: Timestamp)
    returns (stop: bool, rc: int, p': nat, m': nat, i': nat, sep': char, tss': Timestamp)
    requires p <= |str|
    ensures stop ==> TsStep(str, TsState(p, m, i, sep, tss), true) == TsStop(rc) && tss' == tss
    ensures !stop ==> TsStep(str, TsState(p, m, i, sep, tss), true) == TsMore(TsState(p', m', i', sep', tss'))
  {
    var (n, q) := StrToL(str, p);
    stop, rc, p', m', i', sep', tss' := false, 0, p, m, i, sep, tss;
    if q == p && q == |str| {
      stop, rc := true, if m < 1 then -1 else 0;
      return;
    }
    var c := if q < |str| then str[q] else '\0';
    if sep' == '\0' {
      if c == '-' || c == '/' {
        if !HasBit(m', 1) {
          sep', i' := c, 0;
        }
      } else if c == ':' {
        if !HasBit(m', 2) {
          sep', i' := c, 0;
        }
      } else if c != ' ' && c != '.' {
        sep', i' := '\0', 0;
      }
    }
    if sep' == '-' || sep' == '/' {
      tss' := SetDatePart(tss', i', n);
      q, m', i', sep' := NextDateField(str, q, m', i', sep', tss');
    } else if sep' == ':' {
      tss' := SetTimePart(tss', i', n);
      q, m', i', sep' := NextTimeField(str, q, c, m', i', tss');
    } else if sep' == '.' {
      var ndig := q - p;
      if str[p] == '+' || str[p] == '-' {
        ndig := ndig - 1;
      }
      n := ScaleUp(n, ndig);
      tss' := tss'.(fraction := n);
      m', i', sep' := WithBit(m', 4), 0, '\0';
      q := SkipNonDigits(str, q);
    } else {
      sep' := '\0';
      q := SkipNonDigits(str, q);
    }
    p' := q;
  }

  /** `fraction` of the all-digit form: the digits padded with zeros to nine. */
  method PadFraction(fd: string) returns (v: int)
    requires AllDigits(fd)
    ensures v == CompactFraction(fd, true)
  {
    var buf := fd;
    while |buf| < 9
      invariant AllDigits(buf)
      invariant |fd| < 9 ==> |fd| <= |buf| <= 9 && buf == fd + Zeros(|buf| - |fd|)
      invariant |fd| >= 9 ==> buf == fd
      decreases 9 - |buf|
    {
      buf := buf + "0";
    }
    assert fd + Zeros(0) == fd;
    assert buf == fd + Zeros(PadCount(fd));
    v := DecimalValue(buf);
  }

  /** The end of a turn after a date field, with the `if (*q)` guard. */
  method NextDateField(str: CString, q: nat, m: nat, i: nat, sep: char, t: Timestamp)
    returns (q': nat, m': nat, i': nat, sep': char)
    requires q <= |str|
    ensures DateTurn(str, q, true, m, i, sep, t) == TsMore(TsState(q', m', i', sep', t))
  {
    q', m', i', sep' := q, m, i + 1, sep;
    if i' >= 3 {
      i', m', sep' := 0, WithBit(m, 1), '\0';
      q' := SkipNonDigits(str, q);
    } else if q < |str| {
      q' := q + 1;
    }
  }

  /** The end of a turn after a time field; `c` is the character after the number. */
  method NextTimeField(str: CString, q: nat, c: char, m: nat, i: nat, t: Timestamp)
    returns (q': nat, m': nat, i': nat, sep': char)
    requires q <= |str| && (c != '\0' ==> q < |str| && c == str[q])
    ensures TimeTurn(str, q, c, true, m, i, t) == TsMore(TsState(q', m', i', sep', t))
  {
    q', m', i', sep' := q, m, i + 1, ':';
    if i' >= 3 {
      i', m' := 0, WithBit(m, 2);
      if c == '.' {
        sep' := '.';
      } else if c == ' ' {
        sep' := '.';
        if !HasBit(m', 1) {
          var (_, e) := StrToL(str, q + 1);
          if e < |str| && str[e] == '-' {
            sep' := '\0';
          }
        }
      } else {
        sep' := '\0';
      }
      q' := SkipNonDigits(str, q);
    } else if q < |str| {
      q' := q + 1;
    }
  }

  /** `str2timestamp` with its two defects corrected: the fraction of the all-digit form
      is decimal, and `q` never steps past the terminating NUL. */
  method Str2Timestamp(str: CString) returns (rc: int, tss: Timestamp)
    ensures ParseTimestamp(str) == Parsed(rc, tss)
  {
    var p := SkipNonDigits(str, 0);
    var q := SkipDigits(str, p);
    if q - p >= 14 {
      var run := str[p..q];
      var fraction := 0;
      if q - p > 14 {
        var fd := run[14..];
        assert AllDigits(fd) by {
          forall k | 0 <= k < |fd| ensures IsDigit(fd[k]) { assert fd[k] == run[14 + k]; }
        }
        fraction := PadFraction(fd);
      }
      return 0, Timestamp(Field(run, 0, 4), Field(run, 4, 2), Field(run, 6, 2),
                          Field(run, 8, 2), Field(run, 10, 2), Field(run, 12, 2), fraction);
    }
    var m, i, sep := 0, 0, '\0';
    tss := ZeroTimestamp;
    while m != 7
      invariant p <= |str|
      invariant ParseTimestamp(str) == TsLoop(str, TsState(p, m, i, sep, tss), true)
      decreases |str| - p
    {
      var stop;
      stop, rc, p, m, i, sep, tss := TimestampTurn(str, p, m, i, sep, tss);
      if stop {
        return;
      }
    }
    rc := 0;
  }

  /** A text without any digit is refused with -1 and every field 0. */
  lemma NoDigitTimestamp(s: CString, fixed: bool)
    requires NoDigits(s)
    ensures ParseTimestampWith(s, fixed) == Parsed(-1, ZeroTimestamp)
  {
    NonDigitEndNoDigits(s, 0);
    assert StrToL(s, |s|) == (0, |s|);
  }

  /** A number of digits `ds` at `p`, followed by the end or a non-digit. */
  predicate RunAt(s: string, p: nat, ds: string) {
    p + |ds| <= |s| && s[p..p + |ds|] == ds && AllDigits(ds) && ds != [] &&
    (p + |ds| == |s| || !IsDigit(s[p + |ds|]))
  }

  /** The number read at `p`: `strtol` yields its value and end, and the digit at `p`
      means no sign and the next number starting right after one non-digit. */
  lemma NumberAt(s: string, p: nat, ds: string)
    requires RunAt(s, p, ds)
    ensures StrToL(s, p) == (DecimalValue(ds), p + |ds|) && IsDigit(s[p])
  {
    StrToLOfRun(s, p, ds);
    assert s[p] == ds[0];
  }

  /** The character after the number ending at `q`, NUL at the end. */
  function After(s: string, q: nat): char {
    if q < |s| then s[q] else '\0'
  }

  /** A turn whose loop goes on from `next`. */
  lemma LoopOn(s: CString, st: TsState, next: TsState)
    requires st.p <= |s| && st.m != 7 && TsStep(s, st, true) == TsMore(next)
    ensures TsLoop(s, st, true) == TsLoop(s, next, true)
  {
  }

  /** A mask missing the date or the time bit is not the full mask. */
  lemma NotFull(m: nat, bit: nat)
    requires bit == 1 || bit == 2
    requires !HasBit(m, bit)
    ensures m != 7
  {
  }

  /** A date field `i < 2` with value `n` ending at `q` before a non-digit (the first field
      before the separator `sep` that opens the date): the loop goes on at the next field. */
  lemma DateFieldTurn(s: CString, st: TsState, n: int, q: nat, sep: char)
    requires st.p < q < |s| && StrToL(s, st.p) == (n, q) && st.m != 7 && st.i < 2
    requires sep == '-' || sep == '/'
    requires st.sep == sep || (st.sep == '\0' && st.i == 0 && s[q] == sep && !HasBit(st.m, 1))
    ensures TsLoop(s, st, true) ==
            TsLoop(s, TsState(q + 1, st.m, st.i + 1, sep, SetDatePart(st.t, st.i, n)), true)
  {
    LoopOn(s, st, TsState(q + 1, st.m, st.i + 1, sep, SetDatePart(st.t, st.i, n)));
  }

  /** The day, the last date field: the loop goes on at the next number with the date read. */
  lemma DayTurn(s: CString, st: TsState, n: int, q: nat)
    requires st.p < q <= |s| && StrToL(s, st.p) == (n, q) && st.m != 7 && st.i == 2
    requires st.sep == '-' || st.sep == '/'
    ensures TsLoop(s, st, true) ==
            TsLoop(s, TsState(NonDigitEnd(s, q), WithBit(st.m, 1), 0, '\0', st.t.(day := n)), true)
  {
    LoopOn(s, st, TsState(NonDigitEnd(s, q), WithBit(st.m, 1), 0, '\0', st.t.(day := n)));
  }

  /** A time field `i < 2` with value `n` ending at `q` before a non-digit (the first field
      before the `:` that opens the time): the loop goes on at the next field. */
  lemma TimeFieldTurn(s: CString, st: TsState, n: int, q: nat)
    requires st.p < q < |s| && StrToL(s, st.p) == (n, q) && st.m != 7 && st.i < 2
    requires st.sep == ':' || (st.sep == '\0' && st.i == 0 && s[q] == ':' && !HasBit(st.m, 2))
    ensures TsLoop(s, st, true) ==
            TsLoop(s, TsState(q + 1, st.m, st.i + 1, ':', SetTimePart(st.t, st.i, n)), true)
  {
    LoopOn(s, st, TsState(q + 1, st.m, st.i + 1, ':', SetTimePart(st.t, st.i, n)));
  }

  /** The seconds, the last time field: the character after them decides the state
      `next` the loop goes on from. */
  lemma SecondTurn(s: CString, st: TsState, n: int, q: nat, next: TsState)
    requires st.p < q <= |s| && StrToL(s, st.p) == (n, q) && st.m != 7 && st.i == 2 && st.sep == ':'
    requires TimeTurn(s, q, After(s, q), true, st.m, 2, st.t.(second := n)) == TsMore(next)
    ensures TsLoop(s, st, true) == TsLoop(s, next, true)
  {
    LoopOn(s, st, next);
  }

  /** A `.` after the seconds opens the fraction. */
  lemma DotOpensFraction(s: CString, q: nat, m: nat, t: Timestamp)
    requires q + 1 < |s| && s[q] == '.' && NonDigitEnd(s, q) == q + 1
    ensures TimeTurn(s, q, After(s, q), true, m, 2, t) == TsMore(TsState(q + 1, WithBit(m, 2), 0, '.', t))
  {
  }

  /** A space after the seconds, before a number followed by `-`, opens a date when the
      date is not read yet. */
  lemma SpaceOpensDate(s: CString, q: nat, y: int, e: nat, t: Timestamp)
    requires q + 1 < e < |s| && s[q] == ' ' && StrToL(s, q + 1) == (y, e) && s[e] == '-'
    requires NonDigitEnd(s, q) == q + 1
    ensures TimeTurn(s, q, After(s, q), true, 0, 2, t) == TsMore(TsState(q + 1, 2, 0, '\0', t))
  {
    assert WithBit(0, 2) == 2 && !HasBit(2, 1);
  }

  /** The fraction: its digits from `st.p` to `q` scaled to nine digits. */
  lemma FractionTurn(s: CString, st: TsState, n: int, q: nat)
    requires st.p < q <= |s| && StrToL(s, st.p) == (n, q) && IsDigit(s[st.p])
    requires st.m != 7 && st.sep == '.'
    ensures TsLoop(s, st, true) ==
            TsLoop(s, TsState(NonDigitEnd(s, q), WithBit(st.m, 4), 0, '\0',
                              st.t.(fraction := ScaleFraction(n, q - st.p))), true)
  {
    LoopOn(s, st, TsState(NonDigitEnd(s, q), WithBit(st.m, 4), 0, '\0',
                          st.t.(fraction := ScaleFraction(n, q - st.p))));
  }

  /** A date group at `p` of three numbers `y`, `mo`, `d` ending at `q1`, `q2`, `q3`, opened
      by the separator `c1` after the year (the one after the month may be any non-digit):
      the loop goes on after the day with year, month and day read. */
  lemma {:induction false} DateGroup(s: CString, p: nat, y: int, q1: nat, c1: char, mo: int, q2: nat, d: int, q3: nat,
                  m: nat, t: Timestamp)
    requires p < q1 < |s| && StrToL(s, p) == (y, q1) && s[q1] == c1 && (c1 == '-' || c1 == '/')
    requires q1 + 1 < q2 < |s| && StrToL(s, q1 + 1) == (mo, q2)
    requires q2 + 1 < q3 <= |s| && StrToL(s, q2 + 1) == (d, q3)
    requires !HasBit(m, 1)
    ensures TsLoop(s, TsState(p, m, 0, '\0', t), true) ==
            TsLoop(s, TsState(NonDigitEnd(s, q3), WithBit(m, 1), 0, '\0',
                              t.(year := y, month := mo, day := d)), true)
  {
    NotFull(m, 1);
    var st1 := TsState(q1 + 1, m, 1, c1, t.(year := y));
    var st2 := TsState(q2 + 1, m, 2, c1, t.(year := y, month := mo));
    calc {
      TsLoop(s, TsState(p, m, 0, '\0', t), true);
      { DateFieldTurn(s, TsState(p, m, 0, '\0', t), y, q1, c1); }
      TsLoop(s, st1, true);
      { DateFieldTurn(s, st1, mo, q2, c1); }
      TsLoop(s, st2, true);
      { DayTurn(s, st2, d, q3); }
      TsLoop(s, TsState(NonDigitEnd(s, q3), WithBit(m, 1), 0, '\0', t.(year := y, month := mo, day := d)), true);
    }
  }

  /** A time group at `p` of three numbers `h`, `mi`, `se` ending at `q1`, `q2`, `q3`, opened
      by the `:` after the hour: the loop goes on from the state `next` that the character
      after the seconds decides. */
  lemma {:induction false} TimeGroup(s: CString, p: nat, h: int, q1: nat, mi: int, q2: nat, se: int, q3: nat,
                  m: nat, t: Timestamp, next: TsState)
    requires p < q1 < |s| && StrToL(s, p) == (h, q1) && s[q1] == ':'
    requires q1 + 1 < q2 < |s| && StrToL(s, q1 + 1) == (mi, q2)
    requires q2 + 1 < q3 <= |s| && StrToL(s, q2 + 1) == (se, q3)
    requires !HasBit(m, 2)
    requires TimeTurn(s, q3, After(s, q3), true, m, 2, t.(hour := h, minute := mi, second := se)) == TsMore(next)
    ensures TsLoop(s, TsState(p, m, 0, '\0', t), true) == TsLoop(s, next, true)
  {
    NotFull(m, 2);
    var st1 := TsState(q1 + 1, m, 1, ':', t.(hour := h));
    var st2 := TsState(q2 + 1, m, 2, ':', t.(hour := h, minute := mi));
    calc {
      TsLoop(s, TsState(p, m, 0, '\0', t), true);
      { TimeFieldTurn(s, TsState(p, m, 0, '\0', t), h, q1); }
      TsLoop(s, st1, true);
      { TimeFieldTurn(s, st1, mi, q2); }
      TsLoop(s, st2, true);
      { SecondTurn(s, st2, se, q3, next); }
      TsLoop(s, next, true);
    }
  }

  /** A date group of the digit runs `a`, `b`, `c` at `p`, ending at `q1`, `q2`, `q3`, with
      `c1` after the year: the loop goes on after the day with the three numbers read. */
  lemma {:induction false} DateAt(s: CString, p: nat, a: string, c1: char, b: string, c: string,
                                  q1: nat, q2: nat, q3: nat, m: nat, t: Timestamp)
    requires q1 == p + |a| && q2 == q1 + 1 + |b| && q3 == q2 + 1 + |c| && q3 <= |s|
    requires RunAt(s, p, a) && s[q1] == c1 && (c1 == '-' || c1 == '/') && RunAt(s, q1 + 1, b) && RunAt(s, q2 + 1, c)
    requires !HasBit(m, 1)
    ensures TsLoop(s, TsState(p, m, 0, '\0', t), true) ==
            TsLoop(s, TsState(NonDigitEnd(s, q3), WithBit(m, 1), 0, '\0',
                              t.(year := DecimalValue(a), month := DecimalValue(b), day := DecimalValue(c))), true)
  {
    NumberAt(s, p, a);
    NumberAt(s, q1 + 1, b);
    NumberAt(s, q2 + 1, c);
    DateGroup(s, p, DecimalValue(a), q1, c1, DecimalValue(b), q2, DecimalValue(c), q3, m, t);
  }

  /** A time group of the digit runs `d`, `e`, `f` at `p`, ending at `q1`, `q2`, `q3`: the
      loop goes on from the state `next` that the character after the seconds decides. */
  lemma {:induction false} TimeAt(s: CString, p: nat, d: string, e: string, f: string,
                                  q1: nat, q2: nat, q3: nat, m: nat, t: Timestamp, next: TsState)
    requires q1 == p + |d| && q2 == q1 + 1 + |e| && q3 == q2 + 1 + |f| && q3 <= |s|
    requires RunAt(s, p, d) && s[q1] == ':' && RunAt(s, q1 + 1, e) && RunAt(s, q2 + 1, f)
    requires !HasBit(m, 2)
    requires TimeTurn(s, q3, After(s, q3), true, m, 2,
                      t.(hour := DecimalValue(d), minute := DecimalValue(e), second := DecimalValue(f))) == TsMore(next)
    ensures TsLoop(s, TsState(p, m, 0, '\0', t), true) == TsLoop(s, next, true)
  {
    NumberAt(s, p, d);
    NumberAt(s, q1 + 1, e);
    NumberAt(s, q2 + 1, f);
    TimeGroup(s, p, DecimalValue(d), q1, DecimalValue(e), q2, DecimalValue(f), q3, m, t, next);
  }

  /** The non-digit at `q` right before the number at `q + 1`. */
  lemma OneSeparator(s: string, q: nat, ds: string)
    requires q < |s| && !IsDigit(s[q]) && RunAt(s, q + 1, ds)
    ensures NonDigitEnd(s, q) == q + 1 && IsDigit(s[q + 1])
  {
    NumberAt(s, q + 1, ds);
    NonDigitEndFrom(s, q, q + 1);
  }

  /** The loop from the time group of "Y-M-D h:m:s.f" on, the date read into `t3`: the
      numbers `d`, `e`, `f` start after `q3` and end at `q4`, `q5`, `q6`, and the fraction
      runs from `q6 + 1` to the end. */
  lemma {:induction false} SeparatedTail(s: CString, q3: nat, d: string, e: string, f: string, g: string,
                                         q4: nat, q5: nat, q6: nat, t3: Timestamp)
    requires q4 == q3 + 1 + |d| && q5 == q4 + 1 + |e| && q6 == q5 + 1 + |f| && |s| == q6 + 1 + |g|
    requires RunAt(s, q3 + 1, d) && s[q4] == ':' && RunAt(s, q4 + 1, e) && RunAt(s, q5 + 1, f)
    requires s[q6] == '.' && RunAt(s, q6 + 1, g)
    ensures TsLoop(s, TsState(q3 + 1, 1, 0, '\0', t3), true) ==
            Parsed(0, t3.(hour := DecimalValue(d), minute := DecimalValue(e), second := DecimalValue(f),
                          fraction := ScaleFraction(DecimalValue(g), |g|)))
  {
    var t6 := t3.(hour := DecimalValue(d), minute := DecimalValue(e), second := DecimalValue(f));
    var t7 := t6.(fraction := ScaleFraction(DecimalValue(g), |g|));
    var st6 := TsState(q6 + 1, 3, 0, '.', t6);
    calc {
      TsLoop(s, TsState(q3 + 1, 1, 0, '\0', t3), true);
      { OneSeparator(s, q6, g);
        assert !HasBit(1, 2) && WithBit(1, 2) == 3;
        DotOpensFraction(s, q6, 1, t6);
        TimeAt(s, q3 + 1, d, e, f, q4, q5, q6, 1, t3, st6); }
      TsLoop(s, st6, true);
      { NumberAt(s, q6 + 1, g);
        assert WithBit(3, 4) == 7;
        FractionTurn(s, st6, DecimalValue(g), |s|); }
      TsLoop(s, TsState(|s|, 7, 0, '\0', t7), true);
      Parsed(0, t7);
    }
  }

  /** The loop over the date group of "Y-M-D h:m:s.f" at the start: it goes on at the
      hour with the date read. */
  lemma {:induction false} SeparatedHead(s: CString, a: string, c1: char, b: string, c: string, d: string,
                                         q1: nat, q2: nat, q3: nat, t: Timestamp)
    requires q1 == |a| && q2 == q1 + 1 + |b| && q3 == q2 + 1 + |c| && q3 < |s|
    requires RunAt(s, 0, a) && s[q1] == c1 && (c1 == '-' || c1 == '/') && RunAt(s, q1 + 1, b) && RunAt(s, q2 + 1, c)
    requires s[q3] == ' ' && RunAt(s, q3 + 1, d)
    ensures TsLoop(s, TsState(0, 0, 0, '\0', t), true) ==
            TsLoop(s, TsState(q3 + 1, 1, 0, '\0',
                              t.(year := DecimalValue(a), month := DecimalValue(b), day := DecimalValue(c))), true)
  {
    OneSeparator(s, q3, d);
    assert !HasBit(0, 1) && WithBit(0, 1) == 1;
    DateAt(s, 0, a, c1, b, c, q1, q2, q3, 0, t);
  }

  /** The loop over "Y-M-D h:m:s.f" from the fields `t`, given the digit runs and where
      each ends: `q1`..`q6` end the six fields, and the fraction runs to the end. */
  lemma {:induction false} SeparatedLoop(s: CString, a: string, c1: char, b: string, c: string,
                                         d: string, e: string, f: string, g: string,
                                         q1: nat, q2: nat, q3: nat, q4: nat, q5: nat, q6: nat, t: Timestamp)
    requires q1 == |a| && q2 == q1 + 1 + |b| && q3 == q2 + 1 + |c|
    requires q4 == q3 + 1 + |d| && q5 == q4 + 1 + |e| && q6 == q5 + 1 + |f| && |s| == q6 + 1 + |g|
    requires RunAt(s, 0, a) && s[q1] == c1 && (c1 == '-' || c1 == '/') && RunAt(s, q1 + 1, b) && RunAt(s, q2 + 1, c)
    requires s[q3] == ' ' && RunAt(s, q3 + 1, d) && s[q4] == ':' && RunAt(s, q4 + 1, e) && RunAt(s, q5 + 1, f)
    requires s[q6] == '.' && RunAt(s, q6 + 1, g)
    ensures TsLoop(s, TsState(0, 0, 0, '\0', t), true) ==
            Parsed(0, t.(year := DecimalValue(a), month := DecimalValue(b), day := DecimalValue(c),
                         hour := DecimalValue(d), minute := DecimalValue(e), second := DecimalValue(f),
                         fraction := ScaleFraction(DecimalValue(g), |g|)))
  {
    SeparatedHead(s, a, c1, b, c, d, q1, q2, q3, t);
    SeparatedTail(s, q3, d, e, f, g, q4, q5, q6,
                  t.(year := DecimalValue(a), month := DecimalValue(b), day := DecimalValue(c)));
  }

  /** A text whose first character is a digit and whose first number has fewer than 14
      digits is read by the field loop from the start. */
  lemma LoopFromStart(s: CString)
    requires 0 < |s| && IsDigit(s[0]) && DigitEnd(s, 0) < 14
    ensures ParseTimestamp(s) == TsLoop(s, TsState(0, 0, 0, '\0', ZeroTimestamp), true)
  {
    NonDigitEndFrom(s, 0, 0);
  }

  /** A prefix `p + z` of `s` splits into the prefix `p` and the piece `z` after it. */
  lemma Peel(s: string, p: string, z: string)
    requires |p| + |z| <= |s| && s[..|p| + |z|] == p + z
    ensures s[..|p|] == p && s[|p|..|p| + |z|] == z
    ensures |z| == 1 ==> s[|p|] == z[0]
  {
    assert s[..|p|] == s[..|p| + |z|][..|p|];
    assert s[|p|..|p| + |z|] == s[..|p| + |z|][|p|..];
    if |z| == 1 {
      assert s[|p|] == s[..|p| + |z|][|p|];
    }
  }

  /** The empty text adds nothing on either side. */
  lemma NoEmptyPiece(u: string)
    ensures [] + u == u && u + [] == u
  {
  }

  /** The three numbers of a date `a c1 b c2 c` after the prefix `x` of `s`, followed by the
      one non-digit `z` or by the end of `s`. */
  lemma {:induction false} DateRuns(s: string, x: string, a: string, c1: char, b: string, c2: char, c: string, z: string)
    requires |x| + |a| + |b| + |c| + 2 + |z| <= |s|
    requires s[..|x| + |a| + |b| + |c| + 2 + |z|] == x + a + [c1] + b + [c2] + c + z
    requires AllDigits(a) && AllDigits(b) && AllDigits(c) && a != [] && b != [] && c != []
    requires !IsDigit(c1) && !IsDigit(c2)
    requires (|z| == 1 && !IsDigit(z[0])) || (z == [] && |x| + |a| + |b| + |c| + 2 == |s|)
    ensures s[..|x|] == x
    ensures RunAt(s, |x|, a) && s[|x| + |a|] == c1 && RunAt(s, |x| + |a| + 1, b) && s[|x| + |a| + 1 + |b|] == c2
    ensures RunAt(s, |x| + |a| + |b| + 2, c)
    ensures |z| == 1 ==> s[|x| + |a| + |b| + 2 + |c|] == z[0]
  {
    Peel(s, x + a + [c1] + b + [c2] + c, z);
    Peel(s, x + a + [c1] + b + [c2], c);
    Peel(s, x + a + [c1] + b, [c2]);
    Peel(s, x + a + [c1], b);
    Peel(s, x + a, [c1]);
    Peel(s, x, a);
  }

  /** The three numbers of a time `d:e:f` after the prefix `x` of `s`, followed by the one
      non-digit `z`. */
  lemma {:induction false} TimeRuns(s: string, x: string, d: string, e: string, f: string, z: string)
    requires |x| + |d| + |e| + |f| + 2 + |z| <= |s|
    requires s[..|x| + |d| + |e| + |f| + 2 + |z|] == x + d + ":" + e + ":" + f + z
    requires AllDigits(d) && AllDigits(e) && AllDigits(f) && d != [] && e != [] && f != []
    requires |z| == 1 && !IsDigit(z[0])
    ensures s[..|x|] == x
    ensures RunAt(s, |x|, d) && s[|x| + |d|] == ':' && RunAt(s, |x| + |d| + 1, e)
    ensures s[|x| + |d| + |e| + 1] == ':' && RunAt(s, |x| + |d| + |e| + 2, f)
    ensures s[|x| + |d| + |e| + |f| + 2] == z[0]
  {
    Peel(s, x + d + ":" + e + ":" + f, z);
    Peel(s, x + d + ":" + e + ":", f);
    Peel(s, x + d + ":" + e, ":");
    Peel(s, x + d + ":", e);
    Peel(s, x + d, ":");
    Peel(s, x, d);
  }

  /** "YYYY-MM-DD hh:mm:ss.fff" is the text up to the `.` followed by the fraction. */
  lemma {:induction false} SeparatedLayout(s: CString, a: string, c1: char, b: string, c2: char, c: string,
                                           d: string, e: string, f: string, g: string)
    requires s == a + [c1] + b + [c2] + c + " " + d + ":" + e + ":" + f + "." + g
    requires AllDigits(g) && g != []
    ensures |s| == |a| + |b| + |c| + |d| + |e| + |f| + 6 + |g|
    ensures s[..|s| - |g|] == a + [c1] + b + [c2] + c + " " + d + ":" + e + ":" + f + "."
    ensures RunAt(s, |s| - |g|, g)
  {
    assert s[..|s|] == s;
    Peel(s, a + [c1] + b + [c2] + c + " " + d + ":" + e + ":" + f + ".", g);
  }

  /** Where the numbers of "YYYY-MM-DD hh:mm:ss." before the fraction lie: they end at
      `q1`..`q6`. */
  lemma {:induction false} SeparatedRuns(s: CString, a: string, c1: char, b: string, c2: char, c: string,
                                         d: string, e: string, f: string,
                                         q1: nat, q2: nat, q3: nat, q4: nat, q5: nat, q6: nat)
    requires q1 == |a| && q2 == q1 + 1 + |b| && q3 == q2 + 1 + |c|
    requires q4 == q3 + 1 + |d| && q5 == q4 + 1 + |e| && q6 == q5 + 1 + |f| && q6 < |s|
    requires s[..q6 + 1] == a + [c1] + b + [c2] + c + " " + d + ":" + e + ":" + f + "."
    requires AllDigits(a) && AllDigits(b) && AllDigits(c) && AllDigits(d) && AllDigits(e) && AllDigits(f)
    requires a != [] && b != [] && c != [] && d != [] && e != [] && f != []
    requires (c1 == '-' || c1 == '/') && (c2 == '-' || c2 == '/')
    ensures RunAt(s, 0, a) && s[q1] == c1 && RunAt(s, q1 + 1, b) && RunAt(s, q2 + 1, c) && s[q3] == ' '
    ensures RunAt(s, q3 + 1, d) && s[q4] == ':' && RunAt(s, q4 + 1, e) && RunAt(s, q5 + 1, f) && s[q6] == '.'
  {
    var x := a + [c1] + b + [c2] + c;
    assert |x + " "| == q3 + 1;
    TimeRuns(s, x + " ", d, e, f, ".");
    Peel(s, x, " ");
    NoEmptyPiece(a);
    DateRuns(s, [], a, c1, b, c2, c, " ");
  }

  /** "YYYY-MM-DD hh:mm:ss.fff" (either date separator may be `/`): the six numbers in
      order, and the fraction digits scaled to nanoseconds. */
  lemma {:induction false} SeparatedTimestamp(s: CString, a: string, c1: char, b: string, c2: char, c: string,
                           d: string, e: string, f: string, g: string)
    requires s == a + [c1] + b + [c2] + c + " " + d + ":" + e + ":" + f + "." + g
    requires AllDigits(a) && AllDigits(b) && AllDigits(c) && AllDigits(d) && AllDigits(e) && AllDigits(f) && AllDigits(g)
    requires a != [] && b != [] && c != [] && d != [] && e != [] && f != [] && g != []
    requires |a| < 14 && (c1 == '-' || c1 == '/') && (c2 == '-' || c2 == '/')
    ensures ParseTimestamp(s) == Parsed(0, Timestamp(DecimalValue(a), DecimalValue(b), DecimalValue(c),
                                                     DecimalValue(d), DecimalValue(e), DecimalValue(f),
                                                     ScaleFraction(DecimalValue(g), |g|)))
  {
    var q1 := |a|;
    var q2 := q1 + 1 + |b|;
    var q3 := q2 + 1 + |c|;
    var q4 := q3 + 1 + |d|;
    var q5 := q4 + 1 + |e|;
    var q6 := q5 + 1 + |f|;
    SeparatedLayout(s, a, c1, b, c2, c, d, e, f, g);
    SeparatedRuns(s, a, c1, b, c2, c, d, e, f, q1, q2, q3, q4, q5, q6);
    NumberAt(s, 0, a);
    DigitEndOfRun(s, 0, a);
    LoopFromStart(s);
    SeparatedLoop(s, a, c1, b, c, d, e, f, g, q1, q2, q3, q4, q5, q6, ZeroTimestamp);
  }

  /** The loop over the time group of "h:m:s Y-M-D" at the start: the space after the
      seconds, before a number followed by `-`, opens the date at `q3 + 1`. */
  lemma {:induction false} TimeFirstHead(s: CString, d: string, e: string, f: string, a: string,
                                         q1: nat, q2: nat, q3: nat, q4: nat, t: Timestamp)
    requires q1 == |d| && q2 == q1 + 1 + |e| && q3 == q2 + 1 + |f| && q4 == q3 + 1 + |a| && q4 < |s|
    requires RunAt(s, 0, d) && s[q1] == ':' && RunAt(s, q1 + 1, e) && RunAt(s, q2 + 1, f) && s[q3] == ' '
    requires RunAt(s, q3 + 1, a) && s[q4] == '-'
    ensures TsLoop(s, TsState(0, 0, 0, '\0', t), true) ==
            TsLoop(s, TsState(q3 + 1, 2, 0, '\0',
                              t.(hour := DecimalValue(d), minute := DecimalValue(e), second := DecimalValue(f))), true)
  {
    var t3 := t.(hour := DecimalValue(d), minute := DecimalValue(e), second := DecimalValue(f));
    OneSeparator(s, q3, a);
    NumberAt(s, q3 + 1, a);
    SpaceOpensDate(s, q3, DecimalValue(a), q4, t3);
    TimeAt(s, 0, d, e, f, q1, q2, q3, 0, t, TsState(q3 + 1, 2, 0, '\0', t3));
  }

  /** The loop from the date group of "h:m:s Y-M-D" on, the time read into `t3`: the day
      runs to the end. */
  lemma {:induction false} TimeFirstTail(s: CString, q3: nat, a: string, b: string, c: string,
                                         q4: nat, q5: nat, t3: Timestamp)
    requires q4 == q3 + 1 + |a| && q5 == q4 + 1 + |b| && |s| == q5 + 1 + |c|
    requires RunAt(s, q3 + 1, a) && s[q4] == '-' && RunAt(s, q4 + 1, b) && RunAt(s, q5 + 1, c)
    ensures TsLoop(s, TsState(q3 + 1, 2, 0, '\0', t3), true) ==
            Parsed(0, t3.(year := DecimalValue(a), month := DecimalValue(b), day := DecimalValue(c)))
  {
    var t6 := t3.(year := DecimalValue(a), month := DecimalValue(b), day := DecimalValue(c));
    assert !HasBit(2, 1) && WithBit(2, 1) == 3;
    assert NonDigitEnd(s, |s|) == |s|;
    DateAt(s, q3 + 1, a, '-', b, c, q4, q5, |s|, 2, t3);
  }

  /** The loop over "h:m:s Y-M-D" from the fields `t`, given the digit runs and where each
      ends: `q1`..`q5` end the first five fields, and the day runs to the end. */
  lemma {:induction false} TimeFirstLoop(s: CString, d: string, e: string, f: string, a: string, b: string, c: string,
                                         q1: nat, q2: nat, q3: nat, q4: nat, q5: nat, t: Timestamp)
    requires q1 == |d| && q2 == q1 + 1 + |e| && q3 == q2 + 1 + |f| && q4 == q3 + 1 + |a| && q5 == q4 + 1 + |b|
    requires |s| == q5 + 1 + |c|
    requires RunAt(s, 0, d) && s[q1] == ':' && RunAt(s, q1 + 1, e) && RunAt(s, q2 + 1, f) && s[q3] == ' '
    requires RunAt(s, q3 + 1, a) && s[q4] == '-' && RunAt(s, q4 + 1, b) && RunAt(s, q5 + 1, c)
    ensures TsLoop(s, TsState(0, 0, 0, '\0', t), true) ==
            Parsed(0, t.(hour := DecimalValue(d), minute := DecimalValue(e), second := DecimalValue(f),
                         year := DecimalValue(a), month := DecimalValue(b), day := DecimalValue(c)))
  {
    TimeFirstHead(s, d, e, f, a, q1, q2, q3, q4, t);
    TimeFirstTail(s, q3, a, b, c, q4, q5,
                  t.(hour := DecimalValue(d), minute := DecimalValue(e), second := DecimalValue(f)));
  }

  /** "hh:mm:ss YYYY-MM-DD" as the time and space, then the date. */
  lemma {:induction false} TimeFirstLayout(s: CString, d: string, e: string, f: string, a: string, b: string,
                                           c2: char, c: string)
    requires s == d + ":" + e + ":" + f + " " + a + "-" + b + [c2] + c
    ensures |s| == |d| + |e| + |f| + |a| + |b| + |c| + 5
    ensures s[..|s|] == d + ":" + e + ":" + f + " " + a + ['-'] + b + [c2] + c + []
  {
    assert "-" == ['-'];
    NoEmptyPiece(s);
  }

  /** Where the numbers of "hh:mm:ss YYYY-MM-DD" lie: they end at `q1`..`q5` and the day
      runs to the end. */
  lemma {:induction false} TimeFirstRuns(s: CString, d: string, e: string, f: string, a: string, b: string,
                                         c2: char, c: string, q1: nat, q2: nat, q3: nat, q4: nat, q5: nat)
    requires q1 == |d| && q2 == q1 + 1 + |e| && q3 == q2 + 1 + |f| && q4 == q3 + 1 + |a| && q5 == q4 + 1 + |b|
    requires |s| == q5 + 1 + |c|
    requires s[..|s|] == d + ":" + e + ":" + f + " " + a + ['-'] + b + [c2] + c + []
    requires AllDigits(a) && AllDigits(b) && AllDigits(c) && AllDigits(d) && AllDigits(e) && AllDigits(f)
    requires a != [] && b != [] && c != [] && d != [] && e != [] && f != []
    requires c2 == '-' || c2 == '/'
    ensures RunAt(s, 0, d) && s[q1] == ':' && RunAt(s, q1 + 1, e) && RunAt(s, q2 + 1, f) && s[q3] == ' '
    ensures RunAt(s, q3 + 1, a) && s[q4] == '-' && RunAt(s, q4 + 1, b) && RunAt(s, q5 + 1, c)
  {
    DateRuns(s, d + ":" + e + ":" + f + " ", a, '-', b, c2, c, []);
    Peel(s, d + ":" + e + ":" + f, " ");
    NoEmptyPiece(d);
    TimeRuns(s, [], d, e, f, " ");
  }

  /** "hh:mm:ss YYYY-MM-DD": the time first, no fraction. The space after the seconds
      starts a date only when the number after it is followed by `-` (otherwise it is
      read as a fraction), so the date must open with `-`. */
  lemma {:induction false} TimeFirstTimestamp(s: CString, d: string, e: string, f: string, a: string, b: string, c2: char, c: string)
    requires s == d + ":" + e + ":" + f + " " + a + "-" + b + [c2] + c
    requires AllDigits(a) && AllDigits(b) && AllDigits(c) && AllDigits(d) && AllDigits(e) && AllDigits(f)
    requires a != [] && b != [] && c != [] && d != [] && e != [] && f != []
    requires |d| < 14 && (c2 == '-' || c2 == '/')
    ensures ParseTimestamp(s) == Parsed(0, Timestamp(DecimalValue(a), DecimalValue(b), DecimalValue(c),
                                                     DecimalValue(d), DecimalValue(e), DecimalValue(f), 0))
  {
    var q1 := |d|;
    var q2 := q1 + 1 + |e|;
    var q3 := q2 + 1 + |f|;
    var q4 := q3 + 1 + |a|;
    var q5 := q4 + 1 + |b|;
    TimeFirstLayout(s, d, e, f, a, b, c2, c);
    TimeFirstRuns(s, d, e, f, a, b, c2, c, q1, q2, q3, q4, q5);
    NumberAt(s, 0, d);
    DigitEndOfRun(s, 0, d);
    LoopFromStart(s);
    TimeFirstLoop(s, d, e, f, a, b, c, q1, q2, q3, q4, q5, ZeroTimestamp);
  }

  lemma {:induction false} ZerosDigits(ds: string, k: nat)
    requires AllDigits(ds)
    ensures AllDigits(ds + Zeros(k))
  {
    var w := ds + Zeros(k);
    forall j | 0 <= j < |w| ensures IsDigit(w[j]) {
      if j < |ds| { assert w[j] == ds[j]; } else { assert w[j] == Zeros(k)[j - |ds|]; }
    }
  }

  /** Appending `k` zeros to a run of digits multiplies its value by ten to the `k`. */
  lemma {:induction false} DecimalZeros(ds: string, k: nat)
    requires AllDigits(ds)
    ensures AllDigits(ds + Zeros(k))
    ensures DecimalValue(ds + Zeros(k)) == DecimalValue(ds) * Pow10(k)
  {
    ZerosDigits(ds, k);
    if k > 0 {
      var v := ds + Zeros(k - 1);
      DecimalZeros(ds, k - 1);
      assert ds + Zeros(k) == v + "0";
      DecimalTimesTen(v);
      Regroup(DecimalValue(ds), Pow10(k - 1));
    } else {
      assert ds + Zeros(0) == ds;
    }
  }

  /** A zero appended to a run of digits multiplies its value by ten. */
  lemma DecimalTimesTen(ds: string)
    requires AllDigits(ds)
    ensures AllDigits(ds + "0") && DecimalValue(ds + "0") == DecimalValue(ds) * 10
  {
    var w := ds + "0";
    assert w[..|w| - 1] == ds;
  }

  lemma Regroup(a: nat, b: nat)
    ensures a * b * 10 == a * (10 * b)
  {
  }

  /** The corrected fraction: up to nine digits are a decimal number of nanoseconds. */
  lemma DecimalFraction(fd: string)
    requires AllDigits(fd)
    ensures CompactFraction(fd, true) == DecimalValue(fd) * Pow10(PadCount(fd))
    ensures 9 <= |fd| ==> CompactFraction(fd, true) == DecimalValue(fd)
  {
    DecimalZeros(fd, PadCount(fd));
    if 9 <= |fd| {
      assert fd + Zeros(0) == fd;
    }
  }

  /** "YYYYMMDDhhmmss" followed by more digits: the fields are the digit pairs of the run
      and the fraction is read from the digits after the fourteenth. */
  lemma CompactTimestamp(s: CString, pre: string, ds: string, rest: string, fixed: bool)
    requires s == pre + ds + rest && NoDigits(pre) && AllDigits(ds) && 14 < |ds|
    requires rest == [] || !IsDigit(rest[0])
    ensures AllDigits(ds[14..])
    ensures ParseTimestampWith(s, fixed) == Parsed(0, Timestamp(
      DecimalValue(ds[..4]), DecimalValue(ds[4..6]), DecimalValue(ds[6..8]),
      DecimalValue(ds[8..10]), DecimalValue(ds[10..12]), DecimalValue(ds[12..14]),
      CompactFraction(ds[14..], fixed)))
  {
    var fd := ds[14..];
    assert AllDigits(fd) by {
      forall k | 0 <= k < |fd| ensures IsDigit(fd[k]) { assert fd[k] == ds[14 + k]; }
    }
    FirstRun(s, pre, ds, rest);
  }

  /** As written, a fraction starting with 0 is octal: "05" is padded to "050000000" and read
      as 050000000 (octal), 10485760, where 50000000 nanoseconds are meant. */
  lemma FractionOctalAsWritten()
    ensures CompactFraction("05", false) == 10485760
    ensures CompactFraction("05", true) == 50000000
  {
    var buf := "05" + Zeros(7);
    assert buf == "050000000";
    DecimalZeros("05", 7);
    assert "05"[..1] == "0";
    OctalRun(buf);
  }

  lemma {:induction false} OctalEndAll(s: string, i: nat)
    requires i <= |s| && forall k :: 0 <= k < |s| ==> OctalDigit(s[k])
    ensures OctalEnd(s, i) == |s|
    decreases |s| - i
  {
    if i < |s| { OctalEndAll(s, i + 1); }
  }

  /** The octal reading of "050000000". */
  lemma OctalRun(buf: string)
    requires buf == "050000000"
    ensures AllDigits(buf) && StrToLBase0(buf) == 10485760
  {
    OctalEndAll(buf, 0);
    assert buf[..9] == buf;
    assert OctalValue(buf[..1]) == 0;
    assert buf[..2][..1] == buf[..1];
    assert OctalValue(buf[..2]) == 5;
    assert buf[..3][..2] == buf[..2];
    assert OctalValue(buf[..3]) == 40;
    assert buf[..4][..3] == buf[..3];
    assert OctalValue(buf[..4]) == 320;
    assert buf[..5][..4] == buf[..4];
    assert OctalValue(buf[..5]) == 2560;
    assert buf[..6][..5] == buf[..5];
    assert OctalValue(buf[..6]) == 20480;
    assert buf[..7][..6] == buf[..6];
    assert OctalValue(buf[..7]) == 163840;
    assert buf[..8][..7] == buf[..7];
    assert OctalValue(buf[..8]) == 1310720;
    assert buf[..9][..8] == buf[..8];
    assert OctalValue(buf[..9]) == 10485760;
  }

  /** As written, "2002-05" makes `q` step past the terminating NUL after the month; with the
      guard the text is refused with the year and month read. */
  lemma OverrunAsWritten()
    ensures ParseTimestampAsWritten("2002-05") == Overrun
    ensures ParseTimestamp("2002-05") == Parsed(-1, ZeroTimestamp.(year := 2002, month := 5))
  {
    var s: CString := "2002-05";
    var t1 := ZeroTimestamp.(year := 2002);
    var t2 := t1.(month := 5);
    OverrunStart(s);
    OverrunSecond(s);
    assert StrToL(s, 7) == (0, 7);
    assert TsStep(s, TsState(7, 0, 2, '-', t2), true) == TsStop(-1);
  }

  lemma OverrunStart(s: CString)
    requires s == "2002-05"
    ensures NonDigitEnd(s, 0) == 0 && DigitEnd(s, 0) == 4
    ensures forall g :: TsStep(s, TsState(0, 0, 0, '\0', ZeroTimestamp), g)
                        == TsMore(TsState(5, 0, 1, '-', ZeroTimestamp.(year := 2002)))
  {
    assert s[0..4] == "2002" && s[4] == '-';
    StrToLOfRun(s, 0, "2002");
    Value2002();
    assert StrToL(s, 0) == (2002, 4);
    DigitEndOfRun(s, 0, "2002");
  }

  lemma Value2002()
    ensures DecimalValue("2002") == 2002
  {
    assert "2002"[..3] == "200" && "200"[..2] == "20" && "20"[..1] == "2" && "2"[..0] == "";
    assert DecimalValue("2") == 2;
    assert DecimalValue("20") == 20;
    assert DecimalValue("200") == 200;
  }

  lemma OverrunSecond(s: CString)
    requires s == "2002-05"
    ensures TsStep(s, TsState(5, 0, 1, '-', ZeroTimestamp.(year := 2002)), false) == TsOverrun
    ensures TsStep(s, TsState(5, 0, 1, '-', ZeroTimestamp.(year := 2002)), true)
            == TsMore(TsState(7, 0, 2, '-', ZeroTimestamp.(year := 2002, month := 5)))
  {
    assert s[5..7] == "05";
    StrToLOfRun(s, 5, "05");
    assert "05"[..1] == "0";
    assert DecimalValue("05") == 5;
  }
}
