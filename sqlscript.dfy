/** The SQL text helpers of impexp.c: the end-of-statement and blank-line tests used when
    a script is imported, the string builder `append` with its quote doubling, the way
    `process_input` gathers lines into statements, the mode argument of `export_sql` and
    the decision `dump_cb` takes for each table. Reading files, running statements and
    `sqlite3_complete` are outside the model; the last is a parameter. */
module SqlScript {
  import opened CStrings

  // ---------------------------------------------------------------- ends_with_semicolon

  /** `s` without its trailing white space. */
  function TrimEnd(s: string): (t: string)
    ensures IsPrefix(t, s) && AllSpace(s[|t|..])
    ensures t == [] || !IsSpace(t[|t| - 1])
    decreases |s|
  {
    if s != [] && IsSpace(s[|s| - 1]) then
      var t := TrimEnd(s[..|s| - 1]);
      assert s[|t|..] == s[..|s| - 1][|t|..] + [s[|s| - 1]];
      t
    else s
  }

  /** The last character that is not white space is a semicolon. */
  predicate EndsInSemicolon(s: string) {
    var t := TrimEnd(s);
    t != [] && t[|t| - 1] == ';'
  }

  /** `ends_with_semicolon` (impexp.c:126-133) on the first `n` characters of `str`. */
  method EndsWithSemicolon(str: string, n: nat) returns (b: bool)
    requires n <= |str|
    ensures b == EndsInSemicolon(str[..n])
  {
    var m := n;
    while m > 0 && IsSpace(str[m - 1])
      invariant 0 <= m <= n
      invariant TrimEnd(str[..n]) == TrimEnd(str[..m])
    {
      assert str[..m][..m - 1] == str[..m - 1];
      m := m - 1;
    }
    b := m > 0 && str[m - 1] == ';';
  }

  // ---------------------------------------------------------------- all_whitespace

  /** A block comment closes at `j`. */
  predicate CloseHere(s: string, j: int) {
    0 <= j && j + 1 < |s| && s[j] == '*' && s[j + 1] == '/'
  }

  /** The first star-slash pair at or after `i`. */
  function CloseAt(s: string, i: nat): (r: Option<nat>)
    requires i <= |s|
    ensures r.Some? ==> i <= r.value && CloseHere(s, r.value)
    ensures r.Some? ==> forall j :: i <= j < r.value ==> !CloseHere(s, j)
    ensures r.None? ==> forall j :: i <= j < |s| ==> !CloseHere(s, j)
    decreases |s| - i
  {
    if i + 2 > |s| then None
    else if s[i] == '*' && s[i + 1] == '/' then Some(i)
    else CloseAt(s, i + 1)
  }

  /** The first line feed at or after `i`. */
  function NewlineAt(s: string, i: nat): (r: Option<nat>)
    requires i <= |s|
    ensures r.Some? ==> i <= r.value < |s| && s[r.value] == '\n'
    ensures r.Some? ==> forall j :: i <= j < r.value ==> s[j] != '\n'
    ensures r.None? ==> forall j :: i <= j < |s| ==> s[j] != '\n'
  {
    var e := CharEnd(s, i, '\n');
    if e == |s| then None else Some(e)
  }

  /** The two characters at `i` are `a` then `b`. */
  predicate PairAt(s: string, i: nat, a: char, b: char) {
    i + 1 < |s| && s[i] == a && s[i + 1] == b
  }

  /** From `i` on, `s` is white space, closed block comments and line comments; a line
      comment may run to the end of the string, a block comment may not. */
  predicate BlankFrom(s: string, i: nat)
    requires i <= |s|
    decreases |s| - i
  {
    if i == |s| then true
    else if IsSpace(s[i]) then BlankFrom(s, i + 1)
    else if PairAt(s, i, '/', '*') then
      match CloseAt(s, i + 2)
      case None => false
      case Some(j) => BlankFrom(s, j + 2)
    else if PairAt(s, i, '-', '-') then
      match NewlineAt(s, i + 2)
      case None => true
      case Some(j) => BlankFrom(s, j + 1)
    else false
  }

  predicate Blank(s: string) {
    BlankFrom(s, 0)
  }

  /** The inner loop of `all_whitespace` over a block comment's body. */
  method SkipComment(s: CString, k: nat) returns (j: nat)
    requires k <= |s|
    ensures CloseAt(s, k).Some? ==> j == CloseAt(s, k).value
    ensures CloseAt(s, k).None? ==> j == |s|
  {
    j := k;
    while j < |s| && !(s[j] == '*' && j + 1 < |s| && s[j + 1] == '/')
      invariant k <= j <= |s|
      invariant CloseAt(s, k) == CloseAt(s, j)
    {
      j := j + 1;
    }
  }

  /** The inner loop of `all_whitespace` over a line comment. */
  method SkipLine(s: CString, k: nat) returns (j: nat)
    requires k <= |s|
    ensures NewlineAt(s, k).Some? ==> j == NewlineAt(s, k).value
    ensures NewlineAt(s, k).None? ==> j == |s|
  {
    j := k;
    while j < |s| && s[j] != '\n'
      invariant k <= j <= |s|
      invariant NewlineAt(s, k) == NewlineAt(s, j)
    {
      j := j + 1;
    }
  }

  /** `all_whitespace` (impexp.c:135-166). */
  method AllWhitespace(s: CString) returns (b: bool)
    ensures b == Blank(s)
  {
    var i := 0;
    while i < |s|
      invariant 0 <= i <= |s|
      invariant Blank(s) == BlankFrom(s, i)
      decreases |s| - i
    {
      if IsSpace(s[i]) {
        i := i + 1;
        continue;
      }
      if s[i] == '/' && i + 1 < |s| && s[i + 1] == '*' {
        var j := SkipComment(s, i + 2);
        if j == |s| {
          return false;
        }
        i := j + 2;
        continue;
      }
      if s[i] == '-' && i + 1 < |s| && s[i + 1] == '-' {
        var j := SkipLine(s, i + 2);
        if j == |s| {
          return true;
        }
        i := j + 1;
        continue;
      }
      return false;
    }
    return true;
  }

  /** White space in front changes nothing. */
  lemma {:induction false} BlankAfterSpaces(s: string, i: nat, k: nat)
    requires i <= k <= |s| && AllSpace(s[i..k])
    ensures BlankFrom(s, i) == BlankFrom(s, k)
    decreases k - i
  {
    if i < k {
      assert s[i..k][0] == s[i];
      assert s[i + 1..k] == s[i..k][1..];
      BlankAfterSpaces(s, i + 1, k);
    }
  }

  /** A string of white space only is blank. */
  lemma SpacesAreBlank(s: string)
    requires AllSpace(s)
    ensures Blank(s)
  {
    assert s[0..|s|] == s;
    BlankAfterSpaces(s, 0, |s|);
  }

  /** A string that is not blank holds something other than white space. */
  lemma NonBlankHasNonSpace(s: string)
    ensures !Blank(s) ==> exists i :: 0 <= i < |s| && !IsSpace(s[i])
  {
    if forall i :: 0 <= i < |s| ==> IsSpace(s[i]) {
      SpacesAreBlank(s);
    }
  }

  /** A block comment that is never closed makes the string non-blank, and a line comment
      that runs to the end keeps it blank. */
  lemma CommentEnds(pre: string, body: string)
    requires AllSpace(pre)
    ensures (forall j :: !CloseHere(body, j)) ==> !Blank(pre + "/*" + body)
    ensures '\n' !in body ==> Blank(pre + "--" + body)
  {
    var s1 := pre + "/*" + body;
    var s2 := pre + "--" + body;
    var i := |pre|;
    assert s1[0..i] == pre && s2[0..i] == pre;
    BlankAfterSpaces(s1, 0, i);
    BlankAfterSpaces(s2, 0, i);
    assert PairAt(s1, i, '/', '*') && PairAt(s2, i, '-', '-');
    assert forall j :: i + 2 <= j < |s1| ==> s1[j] == body[j - i - 2];
    assert forall j :: i + 2 <= j < |s1| ==> (CloseHere(s1, j) ==> CloseHere(body, j - i - 2));
    assert forall j :: i + 2 <= j < |s2| ==> s2[j] == body[j - i - 2];
  }

  // ---------------------------------------------------------------- append

  /** `s` with every quote character doubled. */
  function Doubled(s: string, q: char): (r: string)
    ensures |r| == |s| + Count(q, s)
  {
    if s == [] then [] else (if s[0] == q then [q, q] else [s[0]]) + Doubled(s[1..], q)
  }

  /** Reading a quoted literal's body back: a doubled quote is one quote, a single quote
      cannot occur. */
  function Undoubled(t: string, q: char): (r: Option<string>)
    decreases |t|
  {
    if t == [] then Some([])
    else if t[0] != q then
      match Undoubled(t[1..], q)
      case Some(u) => Some([t[0]] + u)
      case None => None
    else if |t| >= 2 && t[1] == q then
      match Undoubled(t[2..], q)
      case Some(u) => Some([q] + u)
      case None => None
    else None
  }

  lemma {:induction false} UndoubleDoubled(s: string, q: char)
    ensures Undoubled(Doubled(s, q), q) == Some(s)
  {
    if s != [] {
      UndoubleDoubled(s[1..], q);
      var d := Doubled(s, q);
      if s[0] == q {
        assert d[2..] == Doubled(s[1..], q);
      } else {
        assert d[1..] == Doubled(s[1..], q);
      }
      assert s == [s[0]] + s[1..];
    }
  }

  lemma {:induction false} DoubledAppend(a: string, b: string, q: char)
    ensures Doubled(a + b, q) == Doubled(a, q) + Doubled(b, q)
  {
    if a == [] {
      assert a + b == b;
    } else {
      assert (a + b)[1..] == a[1..] + b;
      DoubledAppend(a[1..], b, q);
    }
  }

  /** What `append(in, s, quote)` leaves in the buffer, before the terminator: `in`
      (empty for NULL), then `s` as is when `quote` is NUL, otherwise `s` between two
      quotes with its quotes doubled. */
  function Appended(inp: Option<CString>, s: CString, q: char): string {
    var base := if inp.Some? then inp.value else [];
    if q == '\0' then base + s else base + [q] + Doubled(s, q) + [q]
  }

  /** The quoted part reads back as `s`: the builder quotes identifiers and literals
      safely. */
  lemma AppendedReadsBack(inp: Option<CString>, s: CString, q: char)
    requires q != '\0'
    ensures var base := if inp.Some? then inp.value else []; var plain: string := s;
            var t := Appended(inp, s, q);
            |t| == |base| + |s| + 2 + Count(q, s) && IsPrefix(base, t) && t[|base|] == q &&
            t[|t| - 1] == q && Undoubled(t[|base| + 1..|t| - 1], q) == Some(plain)
  {
    var base := if inp.Some? then inp.value else [];
    var t := Appended(inp, s, q);
    assert t[|base| + 1..|t| - 1] == Doubled(s, q);
    UndoubleDoubled(s, q);
  }

  /** The size loop of `append`: one more byte for each quote character. */
  method CountQuotes(s: CString, q: char) returns (n: nat)
    ensures n == Count(q, s)
  {
    n := 0;
    for i := 0 to |s|
      invariant n == Count(q, s[..i])
    {
      assert s[..i + 1] == s[..i] + [s[i]];
      CountAppend(q, s[..i], [s[i]]);
      if s[i] == q {
        n := n + 1;
      }
    }
    assert s[..|s|] == s;
  }

  /** The copy loop of `append` with a quote: from `p` on, the quote, `s` with its quotes
      doubled, the closing quote and the terminator. */
  method PutQuoted(r: array<char>, p0: nat, s: CString, q: char)
    requires r.Length == p0 + |s| + Count(q, s) + 3
    modifies r
    ensures r[..p0] == old(r[..p0])
    ensures r[p0..] == [q] + Doubled(s, q) + [q, '\0']
  {
    r[p0] := q;
    var p := PutDoubled(r, p0 + 1, s, q);
    r[p] := q;
    r[p + 1] := '\0';
    assert r[p0..] == [q] + r[p0 + 1..p] + [q, '\0'];
  }

  /** The loop of `append` that copies `s` from `p0` on, doubling each quote; the
      characters are gathered first and then stored in one step. */
  method PutDoubled(r: array<char>, p0: nat, s: string, q: char) returns (p: nat)
    requires p0 + |s| + Count(q, s) <= r.Length
    modifies r
    ensures p == p0 + |s| + Count(q, s)
    ensures r[..p0] == old(r[..p0])
    ensures r[p0..p] == Doubled(s, q)
  {
    var out: string := [];
    for i := 0 to |s|
      invariant out == Doubled(s[..i], q)
      modifies {}
    {
      assert s[..i + 1] == s[..i] + [s[i]];
      DoubledAppend(s[..i], [s[i]], q);
      assert Doubled([s[i]], q) == Chunk(s[i], q);
      out := out + Chunk(s[i], q);
    }
    assert s[..|s|] == s;
    p := p0 + |out|;
    forall j | p0 <= j < p {
      r[j] := out[j - p0];
    }
  }

  /** How `append` writes one character of a quoted string. */
  function Chunk(c: char, q: char): string
  {
    if c == q then [q, q] else [c]
  }

  /** `append` (impexp.c:380-420) into a new buffer of the size it computes; the C
      function reallocates `in`, which keeps its characters in front. */
  method Append(inp: Option<CString>, s: CString, q: char) returns (r: array<char>)
    ensures r.Length == (if inp.Some? then |inp.value| else 0) + |s| + 1 +
                        (if q == '\0' then 0 else 2 + Count(q, s))
    ensures r[..] == Appended(inp, s, q) + ['\0']
  {
    var base: string := if inp.Some? then inp.value else [];
    if q == '\0' {
      r := AppendPlain(base, s);
    } else {
      r := AppendQuoted(base, s, q);
    }
  }

  /** `append` with a NUL quote: `base`, `s` and the terminator. */
  method AppendPlain(base: string, s: CString) returns (r: array<char>)
    ensures r[..] == base + s + ['\0']
  {
    var nin := |base|;
    r := new char[nin + |s| + 1](i => if 0 <= i < nin then base[i] else '\0');
    assert r[..nin] == base;
    PutPlain(r, nin, s);
    assert r[..] == r[..nin] + r[nin..];
  }

  /** `append` with a quote: `base`, the quote, `s` with its quotes doubled, the quote
      and the terminator. */
  method AppendQuoted(base: string, s: CString, q: char) returns (r: array<char>)
    ensures r[..] == base + [q] + Doubled(s, q) + [q] + ['\0']
  {
    var nin := |base|;
    var quotes := CountQuotes(s, q);
    r := new char[nin + |s| + quotes + 3](i => if 0 <= i < nin then base[i] else '\0');
    assert r[..nin] == base;
    PutQuoted(r, nin, s, q);
    assert r[..] == r[..nin] + r[nin..];
  }

  /** The copy of `append` without a quote: `s` and the terminator from `p0` on. */
  method PutPlain(r: array<char>, p0: nat, s: CString)
    requires r.Length == p0 + |s| + 1
    modifies r
    ensures r[..p0] == old(r[..p0])
    ensures r[p0..] == s + ['\0']
  {
    forall i | p0 <= i < p0 + |s| {
      r[i] := s[i - p0];
    }
    r[p0 + |s|] := '\0';
    assert r[p0..] == r[p0..p0 + |s|] + [r[p0 + |s|]];
  }

  // ---------------------------------------------------------------- process_input

  /** The statements run so far and the statement being gathered, if any. */
  datatype Script = Script(run: seq<string>, pending: Option<string>)

  predicate HasNonSpace(s: string) {
    exists i :: 0 <= i < |s| && !IsSpace(s[i])
  }

  /** One line read by `process_input` (impexp.c:182-224): a blank line is dropped while
      no statement is pending; the first line of a statement must hold something other
      than white space; later lines are added after a line feed; a statement that ends in
      a semicolon and is complete runs. */
  function Feed(st: Script, line: CString, complete: string -> bool): Script {
    if (st.pending.None? || st.pending.value == []) && Blank(line) then st
    else
      var sql :=
        if st.pending.None? then (if HasNonSpace(line) then Some(line) else None)
        else Some(st.pending.value + "\n" + line);
      if sql.Some? && EndsInSemicolon(sql.value) && complete(sql.value) then Script(st.run + [sql.value], None)
      else Script(st.run, sql)
  }

  /** The state after the lines of `lines`, in order. */
  function Process(lines: seq<CString>, complete: string -> bool): Script
    decreases |lines|
  {
    if lines == [] then Script([], None)
    else Feed(Process(lines[..|lines| - 1], complete), lines[|lines| - 1], complete)
  }

  /** The number of statements that failed. */
  function Failures(run: seq<string>, ok: string -> bool): (n: nat)
    ensures n <= |run|
  {
    if run == [] then 0 else Failures(run[..|run| - 1], ok) + (if ok(run[|run| - 1]) then 0 else 1)
  }

  /** The body of the `process_input` loop for one line: the new pending statement and
      the statement run, if any. */
  method FeedLine(sql: Option<string>, line: CString, complete: string -> bool)
    returns (next: Option<string>, ran: Option<string>)
    ensures var st := Feed(Script([], sql), line, complete);
            next == st.pending && (ran.Some? <==> st.run != []) && (ran.Some? ==> st.run == [ran.value])
  {
    next := sql;
    ran := None;
    var blank := AllWhitespace(line);
    if (sql.None? || sql.value == []) && blank {
      return;
    }
    if sql.None? {
      var i := 0;
      while i < |line| && IsSpace(line[i])
        invariant 0 <= i <= |line| && AllSpace(line[..i])
      {
        i := i + 1;
      }
      next := if i < |line| then Some(line) else None;
    } else {
      next := Some(sql.value + "\n" + line);
    }
    if next.Some? {
      var semi := EndsWithSemicolon(next.value, |next.value|);
      assert next.value[..|next.value|] == next.value;
      if semi && complete(next.value) {
        ran := next;
        next := None;
      }
    }
  }

  lemma FeedRun(st: Script, line: CString, complete: string -> bool)
    ensures Feed(st, line, complete).pending == Feed(Script([], st.pending), line, complete).pending
    ensures Feed(st, line, complete).run == st.run + Feed(Script([], st.pending), line, complete).run
  {
  }

  /** `process_input` over the lines of a file: the statements it runs and the number of
      errors it returns, `ok` telling which statements succeed. */
  method ProcessInput(lines: seq<CString>, complete: string -> bool, ok: string -> bool)
    returns (errors: nat, run: seq<string>)
    ensures run == Process(lines, complete).run
    ensures errors == Failures(run, ok)
  {
    var sql: Option<string> := None;
    run := [];
    errors := 0;
    for n := 0 to |lines|
      invariant Script(run, sql) == Process(lines[..n], complete)
      invariant errors == Failures(run, ok)
    {
      assert lines[..n + 1][..n] == lines[..n];
      FeedRun(Script(run, sql), lines[n], complete);
      var ran;
      sql, ran := FeedLine(sql, lines[n], complete);
      if ran.Some? {
        run := run + [ran.value];
        if !ok(ran.value) {
          errors := errors + 1;
        }
      }
    }
    assert lines[..|lines|] == lines;
  }

  /** Every statement run ends in a semicolon and is complete, and a pending statement
      always holds something other than white space. */
  lemma {:induction false} ProcessInvariant(lines: seq<CString>, complete: string -> bool)
    ensures var st := Process(lines, complete);
            (forall s :: s in st.run ==> EndsInSemicolon(s) && complete(s)) &&
            (st.pending.Some? ==> HasNonSpace(st.pending.value))
    decreases |lines|
  {
    if lines != [] {
      ProcessInvariant(lines[..|lines| - 1], complete);
      var st := Process(lines[..|lines| - 1], complete);
      var line := lines[|lines| - 1];
      if st.pending.Some? {
        var w :| 0 <= w < |st.pending.value| && !IsSpace(st.pending.value[w]);
        assert (st.pending.value + "\n" + line)[w] == st.pending.value[w];
      }
    }
  }

  /** The lines `ls` joined by single line feeds. */
  function Join(ls: seq<string>): string
    decreases |ls|
  {
    if ls == [] then [] else if |ls| == 1 then ls[0] else Join(ls[..|ls| - 1]) + "\n" + ls[|ls| - 1]
  }

  /** A statement `process_input` runs: it ends in a semicolon and is complete. */
  predicate Finished(stmt: string, complete: string -> bool) {
    EndsInSemicolon(stmt) && complete(stmt)
  }

  /** The lines from `a` up to `j`, joined, make a statement `process_input` runs. */
  predicate FinishedAt(lines: seq<CString>, a: nat, j: nat, complete: string -> bool)
    requires a <= j <= |lines|
  {
    Finished(Join(lines[a..j]), complete)
  }

  /** A statement that starts on a non-blank line `a`, with nothing pending before it, is
      the lines from `a` joined by line feeds for as long as no prefix of them is a
      terminated, complete statement. */
  lemma {:induction false} ProcessJoins(lines: seq<CString>, complete: string -> bool, a: nat, b: nat)
    requires a < b <= |lines| && Process(lines[..a], complete).pending.None? && !Blank(lines[a])
    requires forall j :: a < j < b ==> !FinishedAt(lines, a, j, complete)
    ensures var stmt := Join(lines[a..b]);
            Process(lines[..b], complete) ==
              if EndsInSemicolon(stmt) && complete(stmt) then Script(Process(lines[..a], complete).run + [stmt], None)
              else Script(Process(lines[..a], complete).run, Some(stmt))
    decreases b - a
  {
    var pa := Process(lines[..a], complete);
    ProcessPrefix(lines, b, complete);
    if b == a + 1 {
      assert lines[a..b] == [lines[a]];
      FeedFirst(pa, lines[a], complete);
    } else {
      ProcessJoins(lines, complete, a, b - 1);
      assert !FinishedAt(lines, a, b - 1, complete);
      ProcessInvariant(lines[..b - 1], complete);
      FeedPending(pa.run, Join(lines[a..b - 1]), lines[b - 1], complete);
      JoinExtend(lines, a, b);
    }
  }

  lemma ProcessPrefix(lines: seq<CString>, b: nat, complete: string -> bool)
    requires 0 < b <= |lines|
    ensures Process(lines[..b], complete) == Feed(Process(lines[..b - 1], complete), lines[b - 1], complete)
  {
    assert lines[..b][..b - 1] == lines[..b - 1];
  }

  lemma JoinExtend(lines: seq<CString>, a: nat, b: nat)
    requires a + 1 < b <= |lines|
    ensures Join(lines[a..b]) == Join(lines[a..b - 1]) + "\n" + lines[b - 1]
  {
    assert lines[a..b][..b - 1 - a] == lines[a..b - 1];
  }

  /** A non-blank line with nothing pending starts a statement. */
  lemma FeedFirst(st: Script, line: CString, complete: string -> bool)
    requires st.pending.None? && !Blank(line)
    ensures Feed(st, line, complete) ==
              if Finished(line, complete) then Script(st.run + [line], None) else Script(st.run, Some(line))
  {
    NonBlankHasNonSpace(line);
  }

  /** A line after a pending statement that holds something extends it. */
  lemma FeedPending(run: seq<string>, prev: string, line: CString, complete: string -> bool)
    requires HasNonSpace(prev)
    ensures var stmt := prev + "\n" + line;
            Feed(Script(run, Some(prev)), line, complete) ==
              if EndsInSemicolon(stmt) && complete(stmt) then Script(run + [stmt], None)
              else Script(run, Some(stmt))
  {
    assert prev != [];
  }

  // ---------------------------------------------------------------- export_sql

  /** Bit `k` of `mode` as the C `&` sees it: Dafny's `/` and `%` on int round towards
      negative infinity for a positive divisor, which gives the two's-complement bits of
      negative numbers too. */
  function Bit(mode: int, k: nat): (b: int)
    ensures b == 0 || b == 1
    decreases k
  {
    if k == 0 then mode % 2 else Bit(mode / 2, k - 1)
  }

  /** Bit 0 of the mode suppresses the schema; bit 1 makes the table arguments pairs of
      a table name and a WHERE clause (impexp.c:691-713). */
  predicate WithSchema(mode: int) {
    Bit(mode, 0) == 0
  }

  function Stride(mode: int): (n: nat)
    ensures n == 1 || n == 2
  {
    if Bit(mode, 1) == 1 then 2 else 1
  }

  /** One table to dump, with the WHERE clause, if any, that restricts its rows. */
  datatype Job = Job(table: Option<string>, where: Option<string>)

  /** The table arguments from index `i` on. */
  function Jobs(args: seq<Option<string>>, mode: int, i: nat): (js: seq<Job>)
    decreases |args| - i
  {
    if i >= |args| then []
    else
      var w := if Stride(mode) == 2 && i + 1 < |args| then args[i + 1] else None;
      [Job(args[i], w)] + Jobs(args, mode, i + Stride(mode))
  }

  /** The tables `export_sql` dumps: all of them (None) with two arguments or fewer, the
      listed ones otherwise. */
  method ExportJobs(args: seq<Option<string>>, mode: int) returns (r: Option<seq<Job>>)
    ensures |args| <= 2 ==> r.None?
    ensures |args| > 2 ==> r == Some(Jobs(args, mode, 2))
  {
    if |args| <= 2 {
      return None;
    }
    var js: seq<Job> := [];
    var i := 2;
    while i < |args|
      invariant 2 <= i
      invariant js + Jobs(args, mode, i) == Jobs(args, mode, 2)
      decreases |args| - i
    {
      var w: Option<string> := None;
      if Bit(mode, 1) == 1 && i + 1 < |args| {
        w := args[i + 1];
      }
      js := js + [Job(args[i], w)];
      i := i + Stride(mode);
    }
    assert js + Jobs(args, mode, i) == js;
    return Some(js);
  }

  /** Without bit 1 every argument names a table and none has a WHERE clause; with it the
      arguments are (table, where) pairs, the last one possibly without a WHERE clause. */
  lemma {:induction false} JobsLayout(args: seq<Option<string>>, mode: int, i: nat)
    ensures var js := Jobs(args, mode, i); var s := Stride(mode);
            |js| == (if i >= |args| then 0 else (|args| - i + s - 1) / s) &&
            forall k :: 0 <= k < |js| ==>
              i + s * k < |args| && js[k].table == args[i + s * k] &&
              js[k].where == (if s == 2 && i + s * k + 1 < |args| then args[i + s * k + 1] else None)
  {
    JobsLength(args, mode, i);
    forall k | 0 <= k < |Jobs(args, mode, i)| {
      JobAt(args, mode, i, k);
    }
  }

  lemma {:induction false} JobsLength(args: seq<Option<string>>, mode: int, i: nat)
    ensures var s := Stride(mode);
            |Jobs(args, mode, i)| == (if i >= |args| then 0 else (|args| - i + s - 1) / s)
    decreases |args| - i
  {
    var s := Stride(mode);
    if i < |args| {
      JobsLength(args, mode, i + s);
      var n := |args| - i;
      if s == 1 {
        assert (n + s - 1) / s == n;
      } else {
        assert (n + 1) / 2 == 1 + (if n <= 2 then 0 else (n - 2 + 1) / 2);
      }
    }
  }

  lemma {:induction false} JobAt(args: seq<Option<string>>, mode: int, i: nat, k: nat)
    requires k < |Jobs(args, mode, i)|
    ensures var s := Stride(mode); var js := Jobs(args, mode, i);
            i + s * k < |args| && js[k].table == args[i + s * k] &&
            js[k].where == (if s == 2 && i + s * k + 1 < |args| then args[i + s * k + 1] else None)
    decreases k
  {
    var s := Stride(mode);
    if k > 0 {
      JobAt(args, mode, i + s, k - 1);
      assert Jobs(args, mode, i)[k] == Jobs(args, mode, i + s)[k - 1];
      assert i + s * k == (i + s) + s * (k - 1) by {
        if s == 1 { } else { }
      }
    }
  }

  // ---------------------------------------------------------------- dump_cb

  /** The schema text `dump_cb` writes for one table. */
  datatype SchemaText = NoSchema | Fixed(line: string) | Rebuilt | Verbatim(sql: string)

  /** The outcome of `dump_cb` for one row of sqlite_master: an error, a table it leaves
      out, or the schema text and whether the table's rows are dumped. */
  datatype DumpDecision = DumpError | Ignored | Dumped(schema: SchemaText, rows: bool)

  /** `dump_cb` (impexp.c:422-610): sqlite_sequence and sqlite_stat1 are replaced by a
      DELETE or ANALYZE statement, other tables whose name begins with "sqlite_" are left
      out, a virtual table's CREATE statement is rebuilt as a plain table, and any other
      statement is copied. The schema is written only with the schema flag; the rows of
      every table that is not left out are dumped. */
  function DumpCb(nargs: int, table: CString, kind: CString, sql: CString, withSchema: bool): (d: DumpDecision)
  {
    if nargs != 3 then DumpError
    else if table == "sqlite_sequence" then
      Dumped(if withSchema then Fixed("DELETE FROM sqlite_sequence;") else NoSchema, kind == "table")
    else if table == "sqlite_stat1" then
      Dumped(if withSchema then Fixed("ANALYZE sqlite_master;") else NoSchema, kind == "table")
    else if IsPrefix("sqlite_", table) then Ignored
    else if IsPrefix("CREATE VIRTUAL TABLE", sql) then
      Dumped(if withSchema then Rebuilt else NoSchema, kind == "table")
    else Dumped(if withSchema then Verbatim(sql) else NoSchema, kind == "table")
  }

  /** The internal tables other than the two special ones are never written; without the
      schema flag nothing but rows is written; the rows of a table are dumped exactly when
      it is not left out; a user table's statement is copied unless it creates a virtual
      table. */
  lemma DumpCbRules(table: CString, kind: CString, sql: CString, withSchema: bool)
    ensures var d := DumpCb(3, table, kind, sql, withSchema);
            (IsPrefix("sqlite_", table) && table != "sqlite_sequence" && table != "sqlite_stat1" <==> d == Ignored) &&
            (!withSchema && d.Dumped? ==> d.schema == NoSchema) &&
            (d.Dumped? ==> (d.rows <==> kind == "table")) &&
            (withSchema && !IsPrefix("sqlite_", table) && !IsPrefix("CREATE VIRTUAL TABLE", sql) ==>
               d == Dumped(Verbatim(sql), kind == "table"))
  {
    if table == "sqlite_sequence" {
      assert table[..7] == "sqlite_";
    } else if table == "sqlite_stat1" {
      assert table[..7] == "sqlite_";
    }
  }
}
