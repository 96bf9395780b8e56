/** The line filter of fixup.c: `fixup search1 replace1 search2 replace2 ... < in > out`
    copies its input, replacing in each line the first occurrence of the first search
    string the line contains. A replacement argument `@file` stands for the first line of
    `file`. */
module Fixup {
  import opened CStrings

  const EXIT_SUCCESS := 0
  const EXIT_FAILURE := 1

  // ---------------------------------------------------------------- arguments

  /** The usage check of `main` (fixup.c:16-19): `argv[0]` and then whole pairs, at least
      one of them. */
  predicate ArgsOk(argc: nat) {
    !(argc < 2 || argc % 2 != 1)
  }

  /** A (search, replace) pair of arguments. */
  datatype Pair = Pair(search: CString, replace: CString)

  /** The pairs `argv[1], argv[2]`, `argv[3], argv[4]`, ... that the per-line loop tries in
      order (fixup.c:41). */
  function Pairs(args: seq<CString>): (r: seq<Pair>)
    ensures |r| == if |args| == 0 then 0 else (|args| - 1) / 2
    ensures forall k :: 0 <= k < |r| ==> r[k] == Pair(args[2 * k + 1], args[2 * k + 2])
    ensures ArgsOk(|args|) ==> 1 <= |r| && |args| == 2 * |r| + 1
  {
    var n := if |args| == 0 then 0 else (|args| - 1) / 2;
    seq(n, k requires 0 <= k < n => Pair(args[2 * k + 1], args[2 * k + 2]))
  }

  // ---------------------------------------------------------------- @file arguments

  /** What `fgets` leaves in the buffer: the text up to and including its first newline
      (the 511-byte limit of the buffer is not modelled). */
  function FirstLine(text: CString): (l: CString)
    ensures |l| <= |text| && l == text[..|l|]
    ensures forall k :: 0 <= k < |l| - 1 ==> l[k] != '\n'
    ensures l == text || (|l| > 0 && l[|l| - 1] == '\n')
  {
    if text == [] then []
    else if text[0] == '\n' then ['\n']
    else [text[0]] + FirstLine(text[1..])
  }

  /** fixup.c:29-35 as written: the last character of the first line is dropped, whether
      it is the newline or, in a file without one, a character of the text. */
  function FileArgAsWritten(text: CString): CString {
    var l := FirstLine(text);
    if |l| > 0 then l[..|l| - 1] else l
  }

  /** The replacement an `@file` argument stands for: the file's first line without its
      newline. */
  function FileArg(text: CString): (a: CString)
    ensures '\n' !in a
  {
    var l := FirstLine(text);
    if |l| > 0 && l[|l| - 1] == '\n' then l[..|l| - 1] else l
  }

  /** The argument is the first line of the file, and what follows it there is nothing or
      a newline. */
  lemma FileArgIsFirstLine(text: CString)
    ensures var a := FileArg(text);
            IsPrefix(a, text) && (|a| == |text| || text[|a|] == '\n')
  {
    var l := FirstLine(text);
    if |l| > 0 && l[|l| - 1] == '\n' {
      assert text[|l| - 1] == l[|l| - 1];
    }
  }

  /** The two agree on every file whose first line ends in a newline. */
  lemma {:induction false} FileArgAgrees(text: CString)
    requires '\n' in text
    ensures FileArgAsWritten(text) == FileArg(text)
  {
    var l := FirstLine(text);
    if l != text {
    } else {
      var k :| 0 <= k < |text| && text[k] == '\n';
      assert k == |l| - 1;
    }
  }

  /** A file without a newline loses its last character as written. */
  lemma LastCharLostAsWritten()
    ensures FileArgAsWritten("ab") == "a"
    ensures FileArg("ab") == "ab"
  {
    assert FirstLine("b") == "b";
    assert FirstLine("ab") == "ab";
  }

  /** Where the replacement argument `argv[i]` comes from (fixup.c:20-21): every second
      argument from `argv[2]` on. */
  predicate IsReplacement(i: nat) {
    2 <= i && i % 2 == 0
  }

  predicate IsFileArg(a: CString) {
    |a| > 0 && a[0] == '@'
  }

  /** The files `read(path)` can open (None when `fopen` fails) cover every `@file`
      replacement argument. */
  predicate Readable(args: seq<CString>, read: CString -> Option<CString>) {
    forall i :: 0 <= i < |args| && IsReplacement(i) && IsFileArg(args[i]) ==>
      read(args[i][1..]).Some?
  }

  function Substituted(a: CString, read: CString -> Option<CString>): CString {
    if IsFileArg(a) && read(a[1..]).Some? then FileArg(read(a[1..]).value) else a
  }

  /** The argument vector after the substitution loop of fixup.c:20-37. */
  function Resolved(args: seq<CString>, read: CString -> Option<CString>): (r: seq<CString>)
    ensures |r| == |args|
  {
    seq(|args|, i requires 0 <= i < |args| =>
      if IsReplacement(i) then Substituted(args[i], read) else args[i])
  }

  /** Only `@file` replacement arguments change; search strings, `argv[0]` and plain
      replacements are kept, and a file argument becomes the file's first line. */
  lemma ResolvedArgs(args: seq<CString>, read: CString -> Option<CString>, i: nat)
    requires Readable(args, read) && i < |args|
    ensures var r := Resolved(args, read);
            (!IsReplacement(i) || !IsFileArg(args[i]) ==> r[i] == args[i]) &&
            (IsReplacement(i) && IsFileArg(args[i]) ==>
               r[i] == FileArg(read(args[i][1..]).value) && '\n' !in r[i])
  {
  }

  /** The substitution loop, which overwrites `argv[i]` in place and stops the program
      at the first file it cannot open. */
  method ResolveFiles(argv: array<CString>, read: CString -> Option<CString>) returns (ok: bool)
    modifies argv
    ensures ok <==> Readable(old(argv[..]), read)
    ensures ok ==> argv[..] == Resolved(old(argv[..]), read)
  {
    ghost var args := argv[..];
    var i := 2;
    while i < argv.Length
      invariant 2 <= i && i % 2 == 0
      invariant forall k :: 0 <= k < argv.Length && !(IsReplacement(k) && k < i) ==> argv[k] == args[k]
      invariant forall k :: 0 <= k < argv.Length && IsReplacement(k) && k < i ==>
                  argv[k] == Resolved(args, read)[k] && (IsFileArg(args[k]) ==> read(args[k][1..]).Some?)
      decreases argv.Length - i
    {
      var a := argv[i];
      if |a| > 0 && a[0] == '@' {
        var text := read(a[1..]);
        if text.None? {
          return false;
        }
        argv[i] := FileArg(text.value);
      }
      i := i + 2;
    }
    assert forall k :: 0 <= k < argv.Length ==> argv[k] == Resolved(args, read)[k];
    return true;
  }

  // ---------------------------------------------------------------- the line loop

  /** `strstr(s, t)` searching from `i`: the first index at or after `i` where `t` occurs
      (an empty `t` occurs at `i`). */
  function StrStr(s: CString, t: CString, i: nat): (r: Option<nat>)
    requires i <= |s|
    decreases |s| - i
    ensures r.Some? ==> i <= r.value && OccursAt(s, t, r.value)
    ensures r.Some? ==> forall j :: i <= j < r.value ==> !OccursAt(s, t, j)
    ensures r.None? ==> forall j :: i <= j ==> !OccursAt(s, t, j)
  {
    if OccursAt(s, t, i) then Some(i)
    else if i == |s| then None
    else StrStr(s, t, i + 1)
  }

  /** The search from the start of the line finds `t` exactly when the line contains it. */
  lemma StrStrContains(s: CString, t: CString)
    ensures StrStr(s, t, 0).Some? <==> Contains(s, t)
  {
    if Contains(s, t) {
      var j :| 0 <= j <= |s| && OccursAt(s, t, j);
      assert StrStr(s, t, 0).Some?;
    }
  }

  /** The output for a line whose search string `pr.search` occurs first at `p`
      (fixup.c:45-48): the text before it, the replacement, the text after it. */
  function Splice(line: CString, p: nat, pr: Pair): string
    requires OccursAt(line, pr.search, p)
  {
    line[..p] + pr.replace + line[p + |pr.search|..]
  }

  /** What a line becomes (fixup.c:39-55): the first pair whose search string occurs in it
      is applied once, and a line that contains none is copied as it is. */
  function Fixed(line: CString, pairs: seq<Pair>): string {
    if pairs == [] then line
    else match StrStr(line, pairs[0].search, 0)
      case Some(p) => Splice(line, p, pairs[0])
      case None => Fixed(line, pairs[1..])
  }

  /** A line that contains none of the search strings is copied unchanged. */
  lemma {:induction false} UnmatchedLineUnchanged(line: CString, pairs: seq<Pair>)
    requires forall k :: 0 <= k < |pairs| ==> !Contains(line, pairs[k].search)
    ensures Fixed(line, pairs) == line
  {
    if pairs != [] {
      StrStrContains(line, pairs[0].search);
      UnmatchedLineUnchanged(line, pairs[1..]);
    }
  }

  /** The first pair, in argument order, whose search string occurs is the one applied,
      at the first occurrence of that string. */
  lemma {:induction false} FirstMatchWins(line: CString, pairs: seq<Pair>, k: nat)
    requires k < |pairs| && Contains(line, pairs[k].search)
    requires forall j :: 0 <= j < k ==> !Contains(line, pairs[j].search)
    ensures StrStr(line, pairs[k].search, 0).Some?
    ensures Fixed(line, pairs) == Splice(line, StrStr(line, pairs[k].search, 0).value, pairs[k])
  {
    StrStrContains(line, pairs[0].search);
    StrStrContains(line, pairs[k].search);
    if k > 0 {
      assert pairs[1..][k - 1] == pairs[k];
      FirstMatchWins(line, pairs[1..], k - 1);
    }
  }

  /** The spliced line reads back: the text before the match is kept and holds no
      earlier occurrence, the replacement follows, then the rest of the line; putting
      the search string back restores the line. */
  lemma SpliceReadsBack(line: CString, pr: Pair)
    requires Contains(line, pr.search)
    ensures StrStr(line, pr.search, 0).Some?
    ensures var p := StrStr(line, pr.search, 0).value; var out := Splice(line, p, pr);
            out[..p] == line[..p] && out[p..p + |pr.replace|] == pr.replace &&
            out[p + |pr.replace|..] == line[p + |pr.search|..] &&
            (forall j :: 0 <= j < p ==> !OccursAt(line, pr.search, j)) &&
            out[..p] + pr.search + out[p + |pr.replace|..] == line
  {
    StrStrContains(line, pr.search);
    var p := StrStr(line, pr.search, 0).value;
    var out := Splice(line, p, pr);
    assert out[..p] == line[..p];
    assert out[p..p + |pr.replace|] == pr.replace;
    assert out[p + |pr.replace|..] == line[p + |pr.search|..];
    assert line == line[..p] + line[p..p + |pr.search|] + line[p + |pr.search|..];
  }

  /** The pair loop for one line, with its `found` flag and `break` (fixup.c:39-55). */
  method FixLine(line: CString, argv: array<CString>) returns (out: string)
    requires ArgsOk(argv.Length)
    ensures out == Fixed(line, Pairs(argv[..]))
  {
    ghost var pairs := Pairs(argv[..]);
    ghost var k := 0;
    var found := false;
    out := [];
    var i := 1;
    while i < argv.Length
      invariant i == 2 * k + 1 && k <= |pairs|
      invariant !found && Fixed(line, pairs) == Fixed(line, pairs[k..])
      decreases argv.Length - i
    {
      var p := StrStr(line, argv[i], 0);
      assert pairs[k] == Pair(argv[i], argv[i + 1]);
      assert pairs[k..][0] == pairs[k];
      if p.Some? {
        out := Splice(line, p.value, Pair(argv[i], argv[i + 1]));
        found := true;
        break;
      }
      assert pairs[k..][1..] == pairs[k + 1..];
      i := i + 2;
      k := k + 1;
    }
    if !found {
      assert pairs[k..] == [];
      out := line;
    }
  }

  // ---------------------------------------------------------------- main

  /** The output of the whole filter: each input line fixed by the pairs. */
  function FixAll(lines: seq<CString>, pairs: seq<Pair>): (out: seq<string>)
    ensures |out| == |lines|
    ensures forall n :: 0 <= n < |lines| ==> out[n] == Fixed(lines[n], pairs)
  {
    if lines == [] then [] else [Fixed(lines[0], pairs)] + FixAll(lines[1..], pairs)
  }

  /** `main` (fixup.c:10-58): the exit status and the lines written to standard output.
      `read` stands for the files, `input` for the lines of standard input. */
  method Run(argv: array<CString>, read: CString -> Option<CString>, input: seq<CString>)
    returns (status: int, output: seq<string>)
    modifies argv
    ensures status == EXIT_SUCCESS || status == EXIT_FAILURE
    ensures status == EXIT_SUCCESS <==> ArgsOk(argv.Length) && Readable(old(argv[..]), read)
    ensures status == EXIT_FAILURE ==> output == []
    ensures status == EXIT_SUCCESS ==>
              argv[..] == Resolved(old(argv[..]), read) &&
              output == FixAll(input, Pairs(Resolved(old(argv[..]), read)))
  {
    output := [];
    if argv.Length < 2 || argv.Length % 2 != 1 {
      return EXIT_FAILURE, [];
    }
    var ok := ResolveFiles(argv, read);
    if !ok {
      return EXIT_FAILURE, [];
    }
    output := FilterLines(input, argv);
    status := EXIT_SUCCESS;
  }

  /** The `while (fgets(...))` loop of `main` (fixup.c:38-56) over the lines of standard
      input. */
  method FilterLines(input: seq<CString>, argv: array<CString>) returns (output: seq<string>)
    requires ArgsOk(argv.Length)
    ensures output == FixAll(input, Pairs(argv[..]))
  {
    output := [];
    for n := 0 to |input|
      invariant output == FixAll(input[..n], Pairs(argv[..]))
    {
      var out := FixLine(input[n], argv);
      assert input[..n + 1] == input[..n] + [input[n]];
      FixAllSnoc(input[..n], input[n], Pairs(argv[..]));
      output := output + [out];
    }
    assert input[..|input|] == input;
  }

  lemma {:induction false} FixAllSnoc(lines: seq<CString>, line: CString, pairs: seq<Pair>)
    ensures FixAll(lines + [line], pairs) == FixAll(lines, pairs) + [Fixed(line, pairs)]
  {
    if lines != [] {
      assert (lines + [line])[1..] == lines[1..] + [line];
      FixAllSnoc(lines[1..], line, pairs);
    }
  }
}
