/** `fixupsql` of sqliteodbc.c: rewrites an ODBC SQL text into a printf template for SQLite.
    Parameter markers `?` outside string literals become `'%q'`, `%` is doubled, a backtick
    outside literals becomes a single quote, the escape clauses `{d '...'}`, `{t '...'}` and
    `{ts '...'}` are reduced to their quoted literal, and a second statement is refused. */
module SqlFixup {
  import opened CStrings

  const MultipleStatements: string := "only one SQL statement allowed"

  /** Outcome of the character scan: refused, or the text written and the `?` count. */
  datatype Scan = Failed | Scanned(text: string, np: nat)

  /** What `fixupsql` returns: NULL with an error message, or the new text, `*nparam`
      and `*isselect`. */
  datatype FixupResult = Rejected(errmsg: string) | Rewritten(sql: string, nparam: nat, isselect: bool)

  /** Output `t` (and `n` markers) in front of whatever the rest of the scan produces. */
  function Then(t: string, n: nat, r: Scan): Scan {
    match r
    case Failed => Failed
    case Scanned(text, np) => Scanned(t + text, n + np)
  }

  lemma ThenThen(a: string, n: nat, b: string, m: nat, r: Scan)
    ensures Then(a, n, Then(b, m, r)) == Then(a + b, n + m, r)
  {
    if r.Scanned? {
      assert a + (b + r.text) == (a + b) + r.text;
    }
  }

  /** `while (start < end2 && *start != '\'') ++start;` */
  function ForwardQuote(s: string, start: nat, end2: nat): (r: nat)
    requires start <= end2 < |s|
    ensures start <= r <= end2
    ensures r < end2 ==> s[r] == '\''
    ensures forall j :: start <= j < r ==> s[j] != '\''
    decreases end2 - start
  {
    if start < end2 && s[start] != '\'' then ForwardQuote(s, start + 1, end2) else start
  }

  /** `while (end2 > start && *end2 != '\'') --end2;` */
  function BackQuote(s: string, start: nat, end2: nat): (r: nat)
    requires start <= end2 < |s|
    ensures start <= r <= end2
    ensures r > start ==> s[r] == '\''
    ensures forall j :: r < j <= end2 ==> s[j] != '\''
    decreases end2 - start
  {
    if end2 > start && s[end2] != '\'' then BackQuote(s, start, end2 - 1) else end2
  }

  /** The escape clause opened by the `{` at `k`: the literal copied and the index of the
      closing `}`, or None when the `{` is an ordinary character. */
  function EscapeClause(s: string, k: nat): (r: Option<(string, nat)>)
    requires k < |s|
    ensures r.Some? ==> k < r.value.1 < |s| && s[r.value.1] == '}'
    ensures r.Some? ==> |r.value.0| <= r.value.1 - k
    ensures r.Some? ==> 2 <= |r.value.0| || r.value.0 == "'"
  {
    var e := CharEnd(s, k + 1, '}');
    if e == |s| || e == k + 1 then None
    else
      var st := ForwardQuote(s, k + 1, e - 1);
      var en := BackQuote(s, st, e - 1);
      if s[st] == '\'' && s[en] == '\'' then Some((s[st..en + 1], e)) else None
  }

  /** One turn of the scan: the end of the scan with its outcome, or the text written and
      the markers counted for the character at `k`, and where the scan goes on. */
  datatype Turn = Done(outcome: Scan) | Next(out: string, n: nat, k': nat, inq': bool)

  /** The turn of `fixupsql`'s loop at index `k` with quote state `inq`. A quote seen
      inside a literal closes it only when the character before it is not itself a
      quote; a `;` outside literals ends the scan. */
  function RewriteTurn(s: CString, k: nat, inq: bool): (r: Turn)
    requires k <= |s|
    requires inq ==> k > 0
    ensures r.Next? ==> k < r.k' <= |s| && (r.inq' ==> r.k' > 0) && |r.out| <= 4 * (r.k' - k)
    ensures r.Done? ==> k == |s| || (s[k] == ';' && !inq)
  {
    if k == |s| then Done(Scanned("", 0))
    else
      var c := s[k];
      if c == '`' then Next(if inq then "`" else "'", 0, k + 1, inq)
      else if c == '\'' then Next("'", 0, k + 1, if inq then s[k - 1] == '\'' else true)
      else if c == '?' then
        if inq then Next("?", 0, k + 1, inq) else Next("'%q'", 1, k + 1, inq)
      else if c == ';' then
        if inq then Next(";", 0, k + 1, inq)
        else if AllSpace(s[k + 1..]) then Done(Scanned("", 0))
        else Done(Failed)
      else if c == '%' then Next("%%", 0, k + 1, inq)
      else if c == '{' && !inq && EscapeClause(s, k).Some? then
        var (lit, e) := EscapeClause(s, k).value;
        Next(lit, 0, e + 1, inq)
      else Next([c], 0, k + 1, inq)
  }

  /** The scan of `fixupsql` from index `k` with quote state `inq` (sqliteodbc.c:506-595):
      the turns one after the other. */
  function Rewrite(s: CString, k: nat, inq: bool): (r: Scan)
    requires k <= |s|
    requires inq ==> k > 0
    decreases |s| - k
  {
    match RewriteTurn(s, k, inq)
    case Done(outcome) => outcome
    case Next(out, n, k', inq') => Then(out, n, Rewrite(s, k', inq'))
  }

  /** Index of the first non-space character of `t`. */
  function SkipSpace(t: string, i: nat): (r: nat)
    requires i <= |t|
    ensures i <= r <= |t|
    ensures AllSpace(t[i..r])
    ensures r < |t| ==> !IsSpace(t[r])
    decreases |t| - i
  {
    if i < |t| && IsSpace(t[i]) then SkipSpace(t, i + 1) else i
  }

  /** `*isselect`: after leading white space the text starts with "select", ignoring case. */
  predicate IsSelect(t: string) {
    var i := SkipSpace(t, 0);
    |t| - i >= 6 && Lower(t[i..i + 6]) == "select"
  }

  function Fixup(sql: CString): FixupResult {
    match Rewrite(sql, 0, false)
    case Failed => Rejected(MultipleStatements)
    case Scanned(t, n) => Rewritten(t, n, IsSelect(t))
  }

  /** Every input character produces at most four output characters. */
  lemma {:induction false} RewriteBound(s: CString, k: nat, inq: bool)
    requires k <= |s|
    requires inq ==> k > 0
    ensures Rewrite(s, k, inq).Scanned? ==> |Rewrite(s, k, inq).text| <= 4 * (|s| - k)
    decreases |s| - k
  {
    match RewriteTurn(s, k, inq)
    case Done(_) =>
    case Next(_, _, k', inq') => RewriteBound(s, k', inq');
  }

  /** Size of the output buffer: four bytes per input character and one for the NUL. */
  function AllocSize(n: nat): nat {
    4 * n + 1
  }

  /** The rewritten text and its terminating NUL fit the buffer. */
  lemma FixupFits(sql: CString)
    ensures Fixup(sql).Rewritten? ==> |Fixup(sql).sql| + 1 <= AllocSize(|sql|)
  {
    RewriteBound(sql, 0, false);
  }

  /** The buffer size as written, `xmalloc(sqlLen * 4)` (sqliteodbc.c:502-504). */
  function AllocSizeAsWritten(n: nat): nat {
    4 * n
  }

  /** A single parameter marker fills the buffer as written, and the NUL stored at
      sqliteodbc.c:596 lands one byte past its end. */
  lemma TerminatorOverflowsAsWritten()
    ensures Fixup("?") == Rewritten("'%q'", 1, false)
    ensures |Fixup("?").sql| + 1 > AllocSizeAsWritten(|"?"|)
  {
    var t := "'%q'";
    assert Rewrite("?", 0, false) == Scanned(t, 1) by {
      assert Rewrite("?", 1, false) == Scanned("", 0);
      assert RewriteTurn("?", 0, false) == Next(t, 1, 1, false);
      assert t + "" == t;
    }
    assert !IsSelect(t) by {
      assert |t| == 4 && !IsSpace(t[0]);
      assert SkipSpace(t, 0) == 0;
    }
  }

  /** What one ordinary character outside a literal becomes. */
  function EscapeChar(c: char): string {
    if c == '?' then "'%q'" else if c == '%' then "%%" else [c]
  }

  /** Reference rewriting of text with no quote, backtick, `;` or `{`. */
  function Escaped(t: string): (r: string)
    ensures |r| == |t| + 3 * Count('?', t) + Count('%', t)
  {
    if t == [] then [] else EscapeChar(t[0]) + Escaped(t[1..])
  }

  predicate Plain(c: char) {
    c != '\'' && c != '`' && c != ';' && c != '{'
  }

  predicate PlainText(t: string) {
    forall i :: 0 <= i < |t| ==> Plain(t[i])
  }

  /** Outside literals, a run of ordinary characters is rewritten by `Escaped`: each `?`
      becomes `'%q'` and is counted, each `%` becomes `%%`. */
  lemma {:induction false} PlainRun(s: CString, k: nat, m: nat)
    requires k <= m <= |s|
    requires PlainText(s[k..m])
    ensures Rewrite(s, k, false) == Then(Escaped(s[k..m]), Count('?', s[k..m]), Rewrite(s, m, false))
    decreases m - k
  {
    if k == m {
      assert s[k..m] == [];
      if Rewrite(s, m, false).Scanned? {
        assert "" + Rewrite(s, m, false).text == Rewrite(s, m, false).text;
      }
    } else {
      var c := s[k];
      assert Plain(s[k..m][0]);
      assert s[k..m][1..] == s[k + 1..m];
      PlainTail(s, k, m);
      PlainRun(s, k + 1, m);
      assert RewriteTurn(s, k, false) == Next(EscapeChar(c), if c == '?' then 1 else 0, k + 1, false);
      assert Rewrite(s, k, false) == Then(EscapeChar(c), if c == '?' then 1 else 0, Rewrite(s, k + 1, false));
      ThenThen(EscapeChar(c), if c == '?' then 1 else 0, Escaped(s[k + 1..m]), Count('?', s[k + 1..m]), Rewrite(s, m, false));
    }
  }

  lemma PlainTail(s: CString, k: nat, m: nat)
    requires k < m <= |s|
    requires PlainText(s[k..m])
    ensures PlainText(s[k + 1..m])
  {
    var t, u := s[k + 1..m], s[k..m];
    forall i | 0 <= i < |t| ensures Plain(t[i]) {
      assert t[i] == u[i + 1];
    }
  }

  /** A single statement without literals, escapes or backticks: its rewriting is `Escaped`
      and `*nparam` is the number of `?` in it. */
  lemma PlainStatement(sql: CString)
    requires PlainText(sql)
    ensures Fixup(sql) == Rewritten(Escaped(sql), Count('?', sql), IsSelect(Escaped(sql)))
  {
    PlainRun(sql, 0, |sql|);
    assert sql[0..|sql|] == sql;
    assert Escaped(sql) + "" == Escaped(sql);
  }

  /** A `;` outside literals followed by anything but white space refuses the text. */
  lemma SecondStatementRejected(a: CString, b: CString)
    requires PlainText(a)
    requires !AllSpace(b)
    ensures Fixup(a + ";" + b) == Rejected(MultipleStatements)
  {
    var s: CString := a + ";" + b;
    assert s[0..|a|] == a;
    PlainRun(s, 0, |a|);
    assert s[|a| + 1..] == b;
    SemicolonTurn(s, |a|, Escaped(a), Count('?', a));
  }

  /** A trailing `;` followed only by white space is dropped together with that space. */
  lemma TrailingSemicolonDropped(a: CString, w: CString)
    requires PlainText(a)
    requires AllSpace(w)
    ensures Fixup(a + ";" + w) == Rewritten(Escaped(a), Count('?', a), IsSelect(Escaped(a)))
  {
    var s: CString := a + ";" + w;
    PlainRun(s, 0, |a|);
    assert s[0..|a|] == a;
    assert s[|a| + 1..] == w;
    assert Escaped(a) + "" == Escaped(a);
  }

  /** The scan from `j` in state `q` up to index `k`: what it writes and counts on the way
      and the quote state it arrives in, or None when it stops before `k` or steps over `k`
      inside an escape clause. */
  function ScanTo(s: CString, j: nat, q: bool, k: nat): (r: Option<(string, nat, bool)>)
    requires j <= |s| && (q ==> j > 0)
    ensures r.Some? ==> j <= k <= |s| && (r.value.2 ==> k > 0)
    decreases |s| - j
  {
    if j == k then Some(("", 0, q))
    else
      match RewriteTurn(s, j, q)
      case Done(_) => None
      case Next(out, n, j', q') =>
        match ScanTo(s, j', q', k)
        case None => None
        case Some((t, m, kq)) => Some((out + t, n + m, kq))
  }

  /** The scan from `j` is the part up to `k` that `ScanTo` describes, then the scan from
      `k` in the state it arrives in. */
  lemma {:induction false} ScanToSplits(s: CString, j: nat, q: bool, k: nat)
    requires j <= |s| && (q ==> j > 0)
    requires ScanTo(s, j, q, k).Some?
    ensures Rewrite(s, j, q) == Then(ScanTo(s, j, q, k).value.0, ScanTo(s, j, q, k).value.1,
                                     Rewrite(s, k, ScanTo(s, j, q, k).value.2))
    decreases |s| - j
  {
    if j == k {
      if Rewrite(s, k, q).Scanned? {
        assert "" + Rewrite(s, k, q).text == Rewrite(s, k, q).text;
      }
    } else {
      var turn := RewriteTurn(s, j, q);
      ScanToSplits(s, turn.k', turn.inq', k);
      var rest := ScanTo(s, turn.k', turn.inq', k).value;
      ThenThen(turn.out, turn.n, rest.0, rest.1, Rewrite(s, k, rest.2));
    }
  }

  /** A `;` the scan reaches outside a literal ends it: the text is refused exactly when
      something other than white space follows, and otherwise it is what was written
      before the `;`. */
  lemma SemicolonEndsScan(s: CString, k: nat)
    requires k < |s| && s[k] == ';'
    requires ScanTo(s, 0, false, k).Some? && !ScanTo(s, 0, false, k).value.2
    ensures Fixup(s).Rejected? <==> !AllSpace(s[k + 1..])
    ensures AllSpace(s[k + 1..]) ==>
              Fixup(s) == Rewritten(ScanTo(s, 0, false, k).value.0, ScanTo(s, 0, false, k).value.1,
                                    IsSelect(ScanTo(s, 0, false, k).value.0))
  {
    ScanToSplits(s, 0, false, k);
    var t := ScanTo(s, 0, false, k).value.0;
    assert t + "" == t;
  }

  /** A refused scan from `j` met a `;` outside literals followed by more than white space. */
  lemma {:induction false} RefusedAtSemicolon(s: CString, j: nat, q: bool)
    requires j <= |s| && (q ==> j > 0)
    requires Rewrite(s, j, q).Failed?
    ensures exists k :: j <= k < |s| && s[k] == ';' && ScanTo(s, j, q, k).Some? &&
                        !ScanTo(s, j, q, k).value.2 && !AllSpace(s[k + 1..])
    decreases |s| - j
  {
    match RewriteTurn(s, j, q)
    case Done(_) =>
      assert ScanTo(s, j, q, j) == Some(("", 0, q));
    case Next(out, n, j', q') =>
      RefusedAtSemicolon(s, j', q');
      var k :| j' <= k < |s| && s[k] == ';' && ScanTo(s, j', q', k).Some? &&
               !ScanTo(s, j', q', k).value.2 && !AllSpace(s[k + 1..]);
      assert ScanTo(s, j, q, k).Some? && ScanTo(s, j, q, k).value.2 == ScanTo(s, j', q', k).value.2;
  }

  /** `fixupsql` refuses a text only because of a `;` outside literals followed by more
      than white space. */
  lemma RejectedHasSemicolon(s: CString)
    ensures Fixup(s).Rejected? ==>
              exists k :: 0 <= k < |s| && s[k] == ';' && ScanTo(s, 0, false, k).Some? &&
                          !ScanTo(s, 0, false, k).value.2 && !AllSpace(s[k + 1..])
  {
    if Fixup(s).Rejected? {
      RefusedAtSemicolon(s, 0, false);
    }
  }

  /** Inside a literal every `%` is doubled and nothing else changes. */
  function Doubled(t: string): (r: string)
    ensures |r| == |t| + Count('%', t)
  {
    if t == [] then [] else (if t[0] == '%' then "%%" else [t[0]]) + Doubled(t[1..])
  }

  lemma {:induction false} InLiteralRun(s: CString, i: nat, m: nat)
    requires 0 < i <= m <= |s|
    requires forall j :: i <= j < m ==> s[j] != '\''
    ensures Rewrite(s, i, true) == Then(Doubled(s[i..m]), 0, Rewrite(s, m, true))
    decreases m - i
  {
    if i == m {
      assert s[i..m] == [];
      if Rewrite(s, m, true).Scanned? {
        assert "" + Rewrite(s, m, true).text == Rewrite(s, m, true).text;
      }
    } else {
      var c := s[i];
      assert s[i..m][1..] == s[i + 1..m];
      InLiteralRun(s, i + 1, m);
      var head := if c == '%' then "%%" else [c];
      assert Rewrite(s, i, true) == Then(head, 0, Rewrite(s, i + 1, true));
      ThenThen(head, 0, Doubled(s[i + 1..m]), 0, Rewrite(s, m, true));
    }
  }

  /** A non-empty literal without embedded quotes is copied verbatim (with `%` doubled):
      a `?`, `;`, backtick or `{` inside it is not rewritten and not counted. */
  lemma QuotedLiteral(s: CString, k: nat, m: nat)
    requires k + 1 < m < |s|
    requires s[k] == '\'' && s[m] == '\''
    requires forall j :: k < j < m ==> s[j] != '\''
    ensures Rewrite(s, k, false) == Then("'" + Doubled(s[k + 1..m]) + "'", 0, Rewrite(s, m + 1, false))
  {
    var mid := Doubled(s[k + 1..m]);
    var rest := Rewrite(s, m + 1, false);
    calc {
      Rewrite(s, k, false);
      { OpeningQuote(s, k); }
      Then("'", 0, Rewrite(s, k + 1, true));
      { InLiteralRun(s, k + 1, m); }
      Then("'", 0, Then(mid, 0, Rewrite(s, m, true)));
      { assert s[m - 1] != '\'';
        ClosingQuote(s, m); }
      Then("'", 0, Then(mid, 0, Then("'", 0, rest)));
      { ThenThen(mid, 0, "'", 0, rest); }
      Then("'", 0, Then(mid + "'", 0, rest));
      { ThenThen("'", 0, mid + "'", 0, rest); }
      Then("'" + (mid + "'"), 0, rest);
      { assert "'" + mid + "'" == "'" + (mid + "'"); }
      Then("'" + mid + "'", 0, rest);
    }
  }

  /** A quote outside a literal opens one. */
  lemma OpeningQuote(s: CString, k: nat)
    requires k < |s| && s[k] == '\''
    ensures Rewrite(s, k, false) == Then("'", 0, Rewrite(s, k + 1, true))
  {
  }

  /** A quote after a character other than a quote closes the literal. */
  lemma ClosingQuote(s: CString, m: nat)
    requires 0 < m < |s| && s[m] == '\'' && s[m - 1] != '\''
    ensures Rewrite(s, m, true) == Then("'", 0, Rewrite(s, m + 1, false))
  {
  }

  /** The escape clause `{tag 'lit'}` is replaced by `'lit'`. */
  lemma EscapeClauseReduced(s: CString, k: nat, tag: string, lit: string)
    requires k + |tag| + |lit| + 4 <= |s|
    requires s[k..k + |tag| + |lit| + 4] == "{" + tag + "'" + lit + "'}"
    requires forall j :: 0 <= j < |tag| ==> tag[j] != '\'' && tag[j] != '}'
    requires forall j :: 0 <= j < |lit| ==> lit[j] != '}'
    ensures Rewrite(s, k, false) == Then("'" + lit + "'", 0, Rewrite(s, k + |tag| + |lit| + 4, false))
  {
    EscapeClauseFound(s, k, tag, lit);
  }

  /** Where `fixupsql` finds the pieces of `{tag 'lit'}`. */
  lemma EscapeClauseFound(s: string, k: nat, tag: string, lit: string)
    requires k + |tag| + |lit| + 4 <= |s|
    requires s[k..k + |tag| + |lit| + 4] == "{" + tag + "'" + lit + "'}"
    requires forall j :: 0 <= j < |tag| ==> tag[j] != '\'' && tag[j] != '}'
    requires forall j :: 0 <= j < |lit| ==> lit[j] != '}'
    ensures s[k] == '{'
    ensures EscapeClause(s, k) == Some(("'" + lit + "'", k + |tag| + |lit| + 3))
  {
    var e := k + |tag| + |lit| + 3;
    var q1 := k + 1 + |tag|;
    assert s[k] == s[k..k + |tag| + |lit| + 4][0];
    EscapeBrace(s, k, tag, lit);
    EscapeQuote(s, k, tag, lit);
    EscapeLiteral(s, k, tag, lit);
    assert BackQuote(s, q1, e - 1) == e - 1;
  }

  lemma EscapeLiteral(s: string, k: nat, tag: string, lit: string)
    requires k + |tag| + |lit| + 4 <= |s|
    requires s[k..k + |tag| + |lit| + 4] == "{" + tag + "'" + lit + "'}"
    ensures s[k + |tag| + |lit| + 2] == '\''
    ensures s[k + 1 + |tag|..k + |tag| + |lit| + 3] == "'" + lit + "'"
  {
    var q1 := k + 1 + |tag|;
    var w := s[k..k + |tag| + |lit| + 4];
    var t := "'" + lit + "'";
    assert w == "{" + tag + t + "}";
    forall j | 0 <= j < |t| ensures s[q1 + j] == t[j] {
      assert s[q1 + j] == w[|tag| + 1 + j];
    }
  }

  lemma EscapeBrace(s: string, k: nat, tag: string, lit: string)
    requires k + |tag| + |lit| + 4 <= |s|
    requires s[k..k + |tag| + |lit| + 4] == "{" + tag + "'" + lit + "'}"
    requires forall j :: 0 <= j < |tag| ==> tag[j] != '}'
    requires forall j :: 0 <= j < |lit| ==> lit[j] != '}'
    ensures CharEnd(s, k + 1, '}') == k + |tag| + |lit| + 3
  {
    var e := k + |tag| + |lit| + 3;
    var w := s[k..k + |tag| + |lit| + 4];
    forall j | k + 1 <= j < e ensures s[j] != '}' {
      assert s[j] == w[j - k];
      if j - k <= |tag| { assert w[j - k] == tag[j - k - 1]; }
      else if j - k == |tag| + 1 || j - k == |tag| + |lit| + 2 { assert w[j - k] == '\''; }
      else { assert w[j - k] == lit[j - k - |tag| - 2]; }
    }
    assert s[e] == w[e - k] == '}';
    CharEndAt(s, k + 1, e, '}');
  }

  lemma EscapeQuote(s: string, k: nat, tag: string, lit: string)
    requires k + |tag| + |lit| + 4 <= |s|
    requires s[k..k + |tag| + |lit| + 4] == "{" + tag + "'" + lit + "'}"
    requires forall j :: 0 <= j < |tag| ==> tag[j] != '\''
    ensures ForwardQuote(s, k + 1, k + |tag| + |lit| + 2) == k + 1 + |tag|
  {
    var q1 := k + 1 + |tag|;
    var w := s[k..k + |tag| + |lit| + 4];
    assert s[q1] == w[|tag| + 1] == '\'';
    forall j | k + 1 <= j < q1 ensures s[j] != '\'' {
      assert s[j] == w[j - k] == tag[j - k - 1];
    }
    ForwardQuoteFirst(s, k + 1, k + |tag| + |lit| + 2, q1);
  }

  lemma {:induction false} ForwardQuoteFirst(s: string, start: nat, end2: nat, q: nat)
    requires start <= q <= end2 < |s| && s[q] == '\''
    requires forall j :: start <= j < q ==> s[j] != '\''
    ensures ForwardQuote(s, start, end2) == q
    decreases q - start
  {
    if start < q { ForwardQuoteFirst(s, start + 1, end2, q); }
  }

  /** The quote rule as written: in `'' ?` the second quote follows a quote and so does not
      close the empty literal, and the `?` after it is copied as text rather than counted. */
  lemma EmptyLiteralKeepsQuoteOpen()
    ensures Fixup("'' ?") == Rewritten("'' ?", 0, false)
  {
    var s: CString := "'' ?";
    assert Rewrite(s, 4, true) == Scanned("", 0);
    assert RewriteTurn(s, 3, true) == Next("?", 0, 4, true);
    assert Rewrite(s, 3, true) == Scanned("?", 0);
    assert RewriteTurn(s, 2, true) == Next(" ", 0, 3, true);
    assert Rewrite(s, 2, true) == Scanned(" ?", 0);
    assert RewriteTurn(s, 1, true) == Next("'", 0, 2, true);
    assert Rewrite(s, 1, true) == Scanned("' ?", 0);
    assert RewriteTurn(s, 0, false) == Next("'", 0, 1, true);
    assert Rewrite(s, 0, false) == Scanned("'' ?", 0);
    assert SkipSpace(s, 0) == 0;
  }

  /** The scan for `}` and for the first and last quote before it (sqliteodbc.c:563-588). */
  method FindEscapeClause(sql: CString, k: nat) returns (found: bool, lit: string, e: nat)
    requires k < |sql|
    ensures found == EscapeClause(sql, k).Some?
    ensures found ==> (lit, e) == EscapeClause(sql, k).value
  {
    e := FindChar(sql, k + 1, '}');
    found, lit := false, "";
    if e < |sql| && e != k + 1 {
      var st := FindForwardQuote(sql, k + 1, e - 1);
      var en := FindBackQuote(sql, st, e - 1);
      if sql[st] == '\'' && sql[en] == '\'' {
        found, lit := true, sql[st..en + 1];
      }
    }
  }

  method FindForwardQuote(s: string, start: nat, end2: nat) returns (st: nat)
    requires start <= end2 < |s|
    ensures st == ForwardQuote(s, start, end2)
  {
    st := start;
    while st < end2 && s[st] != '\''
      invariant start <= st <= end2
      invariant ForwardQuote(s, start, end2) == ForwardQuote(s, st, end2)
    {
      st := st + 1;
    }
  }

  method FindBackQuote(s: string, start: nat, end2: nat) returns (en: nat)
    requires start <= end2 < |s|
    ensures en == BackQuote(s, start, end2)
  {
    en := end2;
    while en > start && s[en] != '\''
      invariant start <= en <= end2
      invariant BackQuote(s, start, end2) == BackQuote(s, start, en)
    {
      en := en - 1;
    }
  }

  /** Appends `t` to the buffer at position `p`, one character at a time. */
  method CopyInto(buf: array<char>, p: nat, t: string)
    requires p + |t| <= buf.Length
    modifies buf
    ensures buf[..p + |t|] == old(buf[..p]) + t
  {
    var i := 0;
    while i < |t|
      invariant 0 <= i <= |t|
      invariant buf[..p + i] == old(buf[..p]) + t[..i]
    {
      buf[p + i] := t[i];
      i := i + 1;
    }
  }

  /** The `*isselect` test of sqliteodbc.c:600-608. */
  method StartsWithSelect(out: string) returns (b: bool)
    ensures b == IsSelect(out)
  {
    var i := 0;
    while i < |out| && IsSpace(out[i])
      invariant 0 <= i <= |out|
      invariant SkipSpace(out, 0) == SkipSpace(out, i)
    {
      i := i + 1;
    }
    b := |out| - i >= 6 && Lower(out[i..i + 6]) == "select";
  }

  /** The check after a `;` outside literals that only white space follows it. */
  method OnlySpaceAfter(sql: string, k: nat) returns (b: bool)
    requires k < |sql|
    ensures b == AllSpace(sql[k + 1..])
  {
    var j := k + 1;
    while j < |sql| && IsSpace(sql[j])
      invariant k + 1 <= j <= |sql|
      invariant AllSpace(sql[k + 1..j])
    {
      assert sql[k + 1..j + 1] == sql[k + 1..j] + [sql[j]];
      j := j + 1;
    }
    if j < |sql| {
      assert sql[k + 1..][j - k - 1] == sql[j];
      return false;
    }
    assert sql[k + 1..] == sql[k + 1..j];
    return true;
  }

  /** One turn of the `fixupsql` loop for every character but a statement-ending `;`:
      the characters written at `p` are exactly what the scan emits for `sql[k]`. */
  method Step(sql: CString, k: nat, inq: bool, buf: array<char>, p: nat)
    returns (p': nat, k': nat, inq': bool, dn: nat, ghost emitted: string)
    requires k < |sql| && (inq ==> k > 0)
    requires !(sql[k] == ';' && !inq)
    requires p + 4 * (|sql| - k) <= buf.Length
    modifies buf
    ensures k < k' <= |sql| && (inq' ==> k' > 0)
    ensures p' == p + |emitted| && p' <= p + 4 * (k' - k)
    ensures buf[..p'] == old(buf[..p]) + emitted
    ensures Rewrite(sql, k, inq) == Then(emitted, dn, Rewrite(sql, k', inq'))
  {
    var out;
    out, k', inq', dn := StepText(sql, k, inq);
    CopyInto(buf, p, out);
    emitted := out;
    p' := p + |out|;
  }

  /** What one character (or one escape clause) of the input turns into. */
  method StepText(sql: CString, k: nat, inq: bool) returns (out: string, k': nat, inq': bool, dn: nat)
    requires k < |sql| && (inq ==> k > 0)
    requires !(sql[k] == ';' && !inq)
    ensures k < k' <= |sql| && (inq' ==> k' > 0)
    ensures |out| <= 4 * (k' - k)
    ensures Rewrite(sql, k, inq) == Then(out, dn, Rewrite(sql, k', inq'))
  {
    var c := sql[k];
    inq', dn, k' := inq, 0, k + 1;
    if c == '`' {
      out := if inq then "`" else "'";
    } else if c == '\'' {
      inq' := if inq then sql[k - 1] == '\'' else true;
      out := "'";
    } else if c == '?' && !inq {
      out, dn := "'%q'", 1;
    } else if c == '%' {
      out := "%%";
    } else {
      out, k' := OtherText(sql, k, inq);
    }
  }

  /** Any other character is copied, except that a `{` outside a literal may open an
      escape clause. */
  method OtherText(sql: CString, k: nat, inq: bool) returns (out: string, k': nat)
    requires k < |sql| && (inq ==> k > 0)
    requires sql[k] !in "`'%" && !(sql[k] == '?' && !inq) && !(sql[k] == ';' && !inq)
    ensures k < k' <= |sql| && (inq ==> k' > 0)
    ensures |out| <= 4 * (k' - k)
    ensures Rewrite(sql, k, inq) == Then(out, 0, Rewrite(sql, k', inq))
  {
    var c := sql[k];
    var found, lit, e := false, "", 0;
    if c == '{' && !inq {
      found, lit, e := FindEscapeClause(sql, k);
    }
    if found {
      out, k' := lit, e + 1;
    } else {
      out, k' := [c], k + 1;
    }
  }

  /** A `;` outside literals at `k`, after the scan from the start wrote `t` with `n`
      markers: with only white space after it the text so far stands and the scan is as
      if it had reached the end, otherwise the text is refused. */
  lemma SemicolonTurn(s: CString, k: nat, t: string, n: nat)
    requires k < |s| && s[k] == ';'
    requires Rewrite(s, 0, false) == Then(t, n, Rewrite(s, k, false))
    ensures AllSpace(s[k + 1..]) ==> Rewrite(s, 0, false) == Then(t, n, Rewrite(s, |s|, false))
    ensures !AllSpace(s[k + 1..]) ==> Fixup(s) == Rejected(MultipleStatements)
  {
    assert RewriteTurn(s, |s|, false) == Done(Scanned("", 0));
  }

  /** A scan from the start that wrote `t` with `n` markers and reached the end gives the
      rewritten text `t`, at most four characters per input character. */
  lemma ScanComplete(s: CString, t: string, n: nat, inq: bool)
    requires inq ==> |s| > 0
    requires Rewrite(s, 0, false) == Then(t, n, Rewrite(s, |s|, inq))
    ensures Fixup(s) == Rewritten(t, n, IsSelect(t)) && |t| <= 4 * |s|
  {
    assert RewriteTurn(s, |s|, inq) == Done(Scanned("", 0));
    assert t + "" == t;
    RewriteBound(s, 0, false);
  }

  /** `fixupsql` over a NUL-terminated input (sqliteodbc.c:487-612): the buffer of
      `AllocSize` bytes is filled left to right, then `*isselect` is computed. */
  method FixupSql(sql: CString) returns (res: FixupResult)
    ensures res == Fixup(sql)
    ensures res.Rewritten? ==> |res.sql| <= 4 * |sql|
  {
    var n := |sql|;
    var buf := new char[AllocSize(n)];
    var p, k, np, inq := 0, 0, 0, false;
    while k < n
      invariant 0 <= k <= n
      invariant inq ==> k > 0
      invariant 0 <= p <= 4 * k
      invariant Rewrite(sql, 0, false) == Then(buf[..p], np, Rewrite(sql, k, inq))
      decreases n - k
    {
      if sql[k] == ';' && !inq {
        var rest := OnlySpaceAfter(sql, k);
        SemicolonTurn(sql, k, buf[..p], np);
        if !rest {
          return Rejected(MultipleStatements);
        }
        k := n;
      } else {
        ghost var before := buf[..p];
        ghost var np0 := np;
        ghost var emitted;
        var dn;
        p, k, inq, dn, emitted := Step(sql, k, inq, buf, p);
        np := np + dn;
        ThenThen(before, np0, emitted, dn, Rewrite(sql, k, inq));
      }
    }
    ScanComplete(sql, buf[..p], np, inq);
    buf[p] := '\0';
    var out := buf[..p];
    var isselect := StartsWithSelect(out);
    res := Rewritten(out, np, isselect);
  }
}
