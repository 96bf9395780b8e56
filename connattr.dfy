/** Two string helpers of sqliteodbc.c used when talking to the application: `getdsnattr`,
    which looks up one attribute in a "key=value;key=value" connection string, and the
    `strmak` macro, the bounded copy used to hand strings back through a caller's buffer. */
module ConnAttr {
  import opened CStrings

  /** First index at or after `i` that does not hold `c`, or |s|. */
  function SkipRun(s: string, i: nat, c: char): (e: nat)
    requires i <= |s|
    ensures i <= e <= |s|
    ensures e < |s| ==> s[e] != c
    ensures forall j :: i <= j < e ==> s[j] == c
    decreases |s| - i
  {
    if i == |s| || s[i] != c then i else SkipRun(s, i + 1, c)
  }

  /** What one pass of the outer loop of `getdsnattr` decides. */
  datatype AttrNext = Found(value: string) | Missing | Resume(at: nat)

  /** One pass starting at `i`: skip `;`s, take the text up to the next `=` as the key
      (which may run across a `;` when a pair has no `=`), and either return the value
      up to the next `;`, give up when no `=` is left, or resume at the `;` that ends
      this pair's value. */
  function AttrStep(s: string, attr: string, i: nat): (r: AttrNext)
    requires i < |s|
    ensures r.Resume? ==> i < r.at <= |s|
  {
    var st := SkipRun(s, i, ';');
    var e := CharEnd(s, st, '=');
    if e == |s| then Missing
    else if EqualIgnoreCase(s[st..e], attr) then Found(s[e + 1..CharEnd(s, e + 1, ';')])
    else Resume(CharEnd(s, e, ';'))
  }

  function AttrLoop(s: string, attr: string, i: nat): Option<string>
    requires i <= |s|
    decreases |s| - i
  {
    if i == |s| then None
    else match AttrStep(s, attr, i)
      case Found(v) => Some(v)
      case Missing => None
      case Resume(j) => AttrLoop(s, attr, j)
  }

  /** The value `getdsnattr` finds for `attr` in `dsn`, before truncation to the buffer. */
  function DsnAttr(dsn: string, attr: string): Option<string> {
    AttrLoop(dsn, attr, 0)
  }

  method SkipChars(s: string, i: nat, c: char) returns (e: nat)
    requires i <= |s|
    ensures e == SkipRun(s, i, c)
  {
    e := i;
    while e < |s| && s[e] == c
      invariant i <= e <= |s|
      invariant SkipRun(s, e, c) == SkipRun(s, i, c)
    {
      e := e + 1;
    }
  }

  /** `getdsnattr(dsn, attr, out, out.Length)` (sqliteodbc.c:3983-4018): returns 1 and
      leaves the value of the first pair whose key equals `attr` ignoring case in `out`,
      cut to `out.Length - 1` characters and NUL-terminated; returns 0 otherwise and
      leaves `out` alone. */
  method GetDsnAttr(dsn: CString, attr: CString, out: array<char>) returns (r: int)
    requires out.Length >= 1
    modifies out
    ensures r == 1 <==> DsnAttr(dsn, attr).Some?
    ensures r == 0 <==> DsnAttr(dsn, attr).None?
    ensures r == 1 ==> var v := DsnAttr(dsn, attr).value;
                       var n := Min(out.Length - 1, |v|);
                       out[..n] == v[..n] && out[n] == '\0' && out[n + 1..] == old(out[n + 1..])
    ensures r == 0 ==> unchanged(out)
  {
    var v := FindAttr(dsn, attr);
    if v.None? {
      return 0;
    }
    PutValue(out, v.value);
    return 1;
  }

  /** The scan of `getdsnattr` over the `key=value` pairs: the value of the first pair whose
      key matches. */
  method FindAttr(dsn: CString, attr: CString) returns (v: Option<string>)
    ensures v == DsnAttr(dsn, attr)
  {
    var i: nat := 0;
    while i < |dsn|
      invariant i <= |dsn|
      invariant AttrLoop(dsn, attr, i) == DsnAttr(dsn, attr)
      decreases |dsn| - i
    {
      var st := SkipChars(dsn, i, ';');
      var e := FindChar(dsn, st, '=');
      AttrStepIs(dsn, attr, i, st, e);
      if e == |dsn| {
        return None;
      }
      if e - st == |attr| && EqualIgnoreCase(dsn[st..e], attr) {
        var end := FindChar(dsn, e + 1, ';');
        return Some(dsn[e + 1..end]);
      }
      i := FindChar(dsn, e, ';');
    }
    return None;
  }

  /** One pass of the outer loop in terms of the key's start `st` and end `e`. */
  lemma AttrStepIs(s: string, attr: string, i: nat, st: nat, e: nat)
    requires i < |s| && st == SkipRun(s, i, ';') && e == CharEnd(s, st, '=')
    ensures AttrStep(s, attr, i) ==
              if e == |s| then Missing
              else if EqualIgnoreCase(s[st..e], attr) then Found(s[e + 1..CharEnd(s, e + 1, ';')])
              else Resume(CharEnd(s, e, ';'))
  {
  }

  /** The copy of the value found into the caller's buffer, cut to fit and terminated. */
  method PutValue(out: array<char>, v: string)
    requires out.Length >= 1
    modifies out
    ensures var n := Min(out.Length - 1, |v|); out[..n] == v[..n] && out[n] == '\0'
    ensures var n := Min(out.Length - 1, |v|); out[n + 1..] == old(out[n + 1..])
  {
    var n := Min(out.Length - 1, |v|);
    forall k | 0 <= k < n {
      out[k] := v[k];
    }
    out[n] := '\0';
  }

  /** A connection string built from pairs. */
  datatype Pair = Pair(key: string, value: string)

  /** A pair whose key has no `;` or `=` and whose value has no `;`. */
  predicate PlainPair(p: Pair) {
    ';' !in p.key && '=' !in p.key && ';' !in p.value
  }

  function Entry(p: Pair): string {
    p.key + "=" + p.value
  }

  /** ";k=v" for every pair. */
  function Tail(ps: seq<Pair>): string {
    if ps == [] then "" else ";" + Entry(ps[0]) + Tail(ps[1..])
  }

  /** "k1=v1;k2=v2;...". */
  function Join(ps: seq<Pair>): string {
    if ps == [] then "" else Entry(ps[0]) + Tail(ps[1..])
  }

  /** The reference lookup: the value of the first pair whose key matches ignoring case. */
  function Lookup(ps: seq<Pair>, attr: string): Option<string> {
    if ps == [] then None
    else if EqualIgnoreCase(ps[0].key, attr) then Some(ps[0].value)
    else Lookup(ps[1..], attr)
  }

  /** Where the key, the `=`, the value and the end of one entry lie. */
  lemma EntryPieces(s: string, st: nat, p: Pair, rest: string)
    requires st <= |s| && s[st..] == Entry(p) + rest
    ensures st + |p.key| + 1 + |p.value| + |rest| == |s|
    ensures s[st..st + |p.key|] == p.key && s[st + |p.key|] == '='
    ensures s[st + |p.key| + 1..st + |p.key| + 1 + |p.value|] == p.value
    ensures s[st + |p.key| + 1 + |p.value|..] == rest
  {
    var e := st + |p.key|;
    assert s[st..] == p.key + ("=" + (p.value + rest));
    assert s[st..][..|p.key|] == p.key;
    assert s[st..][|p.key|] == '=';
    assert s[e + 1..] == s[st..][|p.key| + 1..];
    assert s[st..][|p.key| + 1..] == p.value + rest;
  }

  /** One pass over a plain entry that starts at `st`, after at most one `;` at `i`. */
  lemma EntryStep(s: string, attr: string, i: nat, st: nat, p: Pair, end: nat)
    requires end == st + |p.key| + 1 + |p.value| && end <= |s|
    requires PlainPair(p) && i <= st && st - i <= 1 && (st == i + 1 ==> s[i] == ';')
    requires s[st..st + |p.key|] == p.key && s[st + |p.key|] == '='
    requires s[st + |p.key| + 1..end] == p.value
    requires end == |s| || s[end] == ';'
    ensures AttrStep(s, attr, i) == if EqualIgnoreCase(p.key, attr) then Found(p.value) else Resume(end)
  {
    var e := st + |p.key|;
    KeyStart(s, i, st, p);
    KeyEnd(s, st, p.key);
    ValueEnd(s, e + 1, p.value, end);
    AttrStepAt(s, attr, i, st, e, end);
  }

  /** One pass where the key runs from `st` to the `=` at `e` and the value to `end`. */
  lemma AttrStepAt(s: string, attr: string, i: nat, st: nat, e: nat, end: nat)
    requires i <= st <= e < |s| && SkipRun(s, i, ';') == st && CharEnd(s, st, '=') == e
    requires CharEnd(s, e + 1, ';') == end
    ensures AttrStep(s, attr, i) ==
              if EqualIgnoreCase(s[st..e], attr) then Found(s[e + 1..end]) else Resume(end)
  {
    assert CharEnd(s, e, ';') == end;
  }

  lemma KeyStart(s: string, i: nat, st: nat, p: Pair)
    requires st + |p.key| < |s| && PlainPair(p) && i <= st && st - i <= 1 && (st == i + 1 ==> s[i] == ';')
    requires s[st..st + |p.key|] == p.key && s[st + |p.key|] == '='
    ensures SkipRun(s, i, ';') == st
  {
    assert s[st] != ';' by {
      if p.key == [] { assert s[st] == '='; } else { assert s[st] == p.key[0]; }
    }
    if st == i + 1 {
      assert SkipRun(s, i + 1, ';') == st;
    }
  }

  lemma KeyEnd(s: string, st: nat, key: string)
    requires st + |key| < |s| && s[st..st + |key|] == key && s[st + |key|] == '=' && '=' !in key
    ensures CharEnd(s, st, '=') == st + |key|
  {
    forall j | st <= j < st + |key| ensures s[j] != '=' { assert s[j] == key[j - st]; }
    CharEndAt(s, st, st + |key|, '=');
  }

  lemma ValueEnd(s: string, from: nat, v: string, end: nat)
    requires from + |v| == end <= |s| && s[from..end] == v && ';' !in v
    requires end == |s| || s[end] == ';'
    ensures CharEnd(s, from, ';') == end
  {
    forall j | from <= j < end ensures s[j] != ';' { assert s[j] == v[j - from]; }
    CharEndAt(s, from, end, ';');
  }

  /** Looking up a well-formed tail "; k=v ; ..." from its first `;`. */
  lemma {:induction false} TailLookup(s: string, attr: string, i: nat, ps: seq<Pair>)
    requires i <= |s| && s[i..] == Tail(ps)
    requires forall k :: 0 <= k < |ps| ==> PlainPair(ps[k])
    ensures AttrLoop(s, attr, i) == Lookup(ps, attr)
    decreases ps
  {
    if ps != [] {
      var p := ps[0];
      assert s[i..] == ";" + (Entry(p) + Tail(ps[1..]));
      assert s[i] == ';';
      assert s[i + 1..] == Entry(p) + Tail(ps[1..]);
      EntryPieces(s, i + 1, p, Tail(ps[1..]));
      var end := i + 1 + |p.key| + 1 + |p.value|;
      TailStart(s, end, ps[1..]);
      EntryStep(s, attr, i, i + 1, p, end);
      if !EqualIgnoreCase(p.key, attr) {
        TailLookup(s, attr, end, ps[1..]);
      }
    }
  }

  lemma TailStart(s: string, i: nat, ps: seq<Pair>)
    requires i <= |s| && s[i..] == Tail(ps)
    ensures i == |s| || s[i] == ';'
  {
    if ps != [] {
      assert s[i..] == ";" + (Entry(ps[0]) + Tail(ps[1..]));
      assert s[i] == s[i..][0];
    }
  }

  /** For a connection string built from plain pairs, `getdsnattr` finds exactly the value
      of the first pair whose key equals `attr` ignoring case. */
  lemma {:induction false} JoinLookup(ps: seq<Pair>, attr: string)
    requires forall k :: 0 <= k < |ps| ==> PlainPair(ps[k])
    ensures DsnAttr(Join(ps), attr) == Lookup(ps, attr)
  {
    var s := Join(ps);
    if ps != [] {
      var p := ps[0];
      EntryPieces(s, 0, p, Tail(ps[1..]));
      var end := |p.key| + 1 + |p.value|;
      TailStart(s, end, ps[1..]);
      EntryStep(s, attr, 0, 0, p, end);
      if !EqualIgnoreCase(p.key, attr) {
        TailLookup(s, attr, end, ps[1..]);
      }
    }
  }

  /** A pair written without `=` swallows the next key: "flag;k=v" has no attribute "k",
      because the key is read up to the next `=`, across the `;`. */
  lemma KeyWithoutValueHidesNext()
    ensures DsnAttr("flag;k=v", "k") == None
    ensures DsnAttr("k=v", "K") == Some("v")
  {
    var s := "flag;k=v";
    CharEndAt(s, 0, 6, '=');
    CharEndAt(s, 6, 8, ';');
    assert AttrStep(s, "k", 0) == Resume(8);
    var t := "k=v";
    CharEndAt(t, 0, 1, '=');
    CharEndAt(t, 2, 3, ';');
    assert Lower("k") == Lower("K");
    assert AttrStep(t, "K", 0) == Found("v");
  }

  /** `strmak(dst, src, max, &len)` (sqliteodbc.c:2918-2923): copies `src` and its NUL, at
      most `max` characters of them, and reports `min(|src|, max)`. The copy is
      NUL-terminated exactly when `src` is shorter than `max`; nothing past the copied
      characters changes. */
  method StrMak(dst: array<char>, src: CString, max: int) returns (len: int)
    requires 0 <= max <= dst.Length
    modifies dst
    ensures len == Min(|src|, max)
    ensures dst[..len] == src[..len]
    ensures |src| < max ==> dst[len] == '\0'
    ensures dst[Min(|src| + 1, max)..] == old(dst[Min(|src| + 1, max)..])
  {
    var cnt := Min(|src| + 1, max);
    var t := src + ['\0'];
    for i := 0 to cnt
      invariant dst[..i] == t[..i]
      invariant dst[cnt..] == old(dst[cnt..])
    {
      dst[i] := t[i];
    }
    len := if cnt > |src| then |src| else cnt;
    assert dst[..len] == t[..len];
  }
}
