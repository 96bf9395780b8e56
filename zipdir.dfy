/** The ZIP reader of zipfile.c: little-endian field decoding, the search for the
    end-of-central-directory record, the walk over the central file headers
    (PKWARE APPNOTE.TXT, sections 4.3.16 and 4.3.12), the MS-DOS date and time of an entry
    (section 4.4.6) and the quote stripping of the file-name argument. The mapped file is
    a sequence of bytes; an entry is the offset of its central header. */
module ZipDir {
  import opened CStrings

  type byte = x: int | 0 <= x < 256

  const LOCAL_HEADER_SIG := 0x04034b50
  const CENTRAL_HEADER_SIG := 0x02014b50
  const CENTRAL_HEADER_LEN := 46
  const CENTRAL_MTIME_OFFS := 12
  const CENTRAL_MDATE_OFFS := 14
  const CENTRAL_PATHLEN_OFFS := 28
  const CENTRAL_EXTRALEN_OFFS := 30
  const CENTRAL_COMMENTLEN_OFFS := 32
  const CENTRAL_END_SIG := 0x06054b50
  const CENTRAL_END_LEN := 22
  const CENTRAL_ENTS_OFFS := 8
  const CENTRAL_DIRSTART_OFFS := 16

  /** `zip_read_short` (zipfile.c:71-72). */
  function ReadShort(data: seq<byte>, p: int): (v: nat)
    requires 0 <= p && p + 2 <= |data|
    ensures v < 0x1_0000
  {
    (data[p] as int) + 256 * (data[p + 1] as int)
  }

  /** `zip_read_int` (zipfile.c:69-70) read as an unsigned 32-bit number. */
  function ReadInt(data: seq<byte>, p: int): (v: nat)
    requires 0 <= p && p + 4 <= |data|
    ensures v < 0x1_0000_0000
  {
    (data[p] as int) + 256 * (data[p + 1] as int) + 0x1_0000 * (data[p + 2] as int) + 0x100_0000 * (data[p + 3] as int)
  }

  /** `zip_read_int` as written: the shifts are done in `int`, so a last byte of 0x80 or
      more gives a negative number. */
  function ReadIntAsWritten(data: seq<byte>, p: int): (v: int)
    requires 0 <= p && p + 4 <= |data|
    ensures -0x8000_0000 <= v < 0x8000_0000
    ensures v == ReadInt(data, p) || v == ReadInt(data, p) - 0x1_0000_0000
  {
    var u := ReadInt(data, p);
    if u >= 0x8000_0000 then u - 0x1_0000_0000 else u
  }

  /** The two bytes of `v`, low byte first. */
  function Le16(v: nat): seq<byte>
    requires v < 0x1_0000
  {
    [v % 256, v / 256]
  }

  /** The four bytes of `v`, low byte first. */
  function Le32(v: nat): seq<byte>
    requires v < 0x1_0000_0000
  {
    [v % 256, (v / 256) % 256, (v / 0x1_0000) % 256, v / 0x100_0000]
  }

  /** Decoding undoes encoding, wherever the bytes sit. */
  lemma ReadShortLe16(data: seq<byte>, p: nat, v: nat)
    requires v < 0x1_0000 && p + 2 <= |data| && data[p..p + 2] == Le16(v)
    ensures ReadShort(data, p) == v
  {
    assert data[p] == v % 256 && data[p + 1] == v / 256;
  }

  lemma ReadIntLe32(data: seq<byte>, p: nat, v: nat)
    requires v < 0x1_0000_0000 && p + 4 <= |data| && data[p..p + 4] == Le32(v)
    ensures ReadInt(data, p) == v
  {
    assert data[p] == v % 256 && data[p + 1] == (v / 256) % 256;
    assert data[p + 2] == (v / 0x1_0000) % 256 && data[p + 3] == v / 0x100_0000;
    var a := v / 256;
    var b := a / 256;
    assert v == v % 256 + 256 * a;
    assert a == a % 256 + 256 * b;
    assert b == v / 0x1_0000;
    assert b == b % 256 + 256 * (v / 0x100_0000);
  }

  /** Four bytes decode to `v` only when they are the encoding of `v`. */
  lemma ReadIntBytes(data: seq<byte>, p: nat)
    requires p + 4 <= |data|
    ensures data[p..p + 4] == Le32(ReadInt(data, p))
  {
    var v := ReadInt(data, p);
    var rest := (data[p + 1] as int) + 256 * (data[p + 2] as int) + 0x1_0000 * (data[p + 3] as int);
    assert v == (data[p] as int) + 256 * rest;
    assert v % 256 == data[p] && v / 256 == rest;
    var rest2 := (data[p + 2] as int) + 256 * (data[p + 3] as int);
    assert rest == data[p + 1] + 256 * rest2;
    assert rest % 256 == data[p + 1] && rest / 256 == rest2;
    assert v / 0x1_0000 == rest2;
    assert rest2 % 256 == data[p + 2] && rest2 / 256 == data[p + 3];
  }

  /** An end-of-central-directory signature at `p`. */
  predicate EndSigAt(data: seq<byte>, p: int) {
    0 <= p && p + 4 <= |data| && ReadInt(data, p) == CENTRAL_END_SIG
  }

  /** The last end-of-central-directory signature at or before `p`. */
  function LastEndSig(data: seq<byte>, p: int): (r: Option<nat>)
    requires p + 4 <= |data|
    ensures r.Some? ==> r.value <= p && EndSigAt(data, r.value)
    ensures r.Some? ==> forall q :: r.value < q <= p ==> !EndSigAt(data, q)
    ensures r.None? ==> forall q :: 0 <= q <= p ==> !EndSigAt(data, q)
    decreases p + 1
  {
    if p < 0 then None
    else if EndSigAt(data, p) then Some(p)
    else LastEndSig(data, p - 1)
  }

  /** The signature is the bytes 0x50 0x4b 0x05 0x06 ("PK\x05\x06"). */
  lemma EndSigBytes(data: seq<byte>, q: int)
    requires 0 <= q && q + 4 <= |data|
    ensures EndSigAt(data, q) <==>
            data[q] == 0x50 && data[q + 1] == 0x4b && data[q + 2] == 0x05 && data[q + 3] == 0x06
  {
    ReadIntBytes(data, q);
    assert Le32(CENTRAL_END_SIG) == [0x50, 0x4b, 0x05, 0x06];
    assert data[q..q + 4] == [data[q], data[q + 1], data[q + 2], data[q + 3]];
  }

  /** A position holding 0x50 that does not start the signature cannot be within three
      bytes after the start of one either: the signature's other bytes are 0x4b, 0x05 and
      0x06. So the search may step back four bytes. */
  lemma SkipAfterFalseStart(data: seq<byte>, p: int)
    requires 0 <= p && p + 4 <= |data| && data[p] == 0x50 && !EndSigAt(data, p)
    ensures LastEndSig(data, p) == LastEndSig(data, p - 4)
  {
    forall q | p - 3 <= q < p && 0 <= q
      ensures !EndSigAt(data, q)
    {
      EndSigBytes(data, q);
    }
    assert LastEndSig(data, p) == LastEndSig(data, p - 1);
    assert LastEndSig(data, p - 1) == LastEndSig(data, p - 2);
    assert LastEndSig(data, p - 2) == LastEndSig(data, p - 3);
  }

  /** The backward search of `zip_open` (zipfile.c:190-203), starting 22 bytes before the
      end: the offset of the last signature that leaves room for the record. */
  method FindEndRecord(data: seq<byte>) returns (r: Option<nat>)
    requires |data| >= CENTRAL_END_LEN
    ensures r == LastEndSig(data, |data| - CENTRAL_END_LEN)
  {
    var p := |data| - CENTRAL_END_LEN;
    while p >= 0
      invariant -4 <= p <= |data| - CENTRAL_END_LEN
      invariant LastEndSig(data, |data| - CENTRAL_END_LEN) == LastEndSig(data, p)
      decreases p + 4
    {
      if data[p] == CENTRAL_END_SIG % 256 {
        if ReadInt(data, p) == CENTRAL_END_SIG {
          return Some(p);
        }
        SkipAfterFalseStart(data, p);
        p := p - 4;
      } else {
        EndSigBytes(data, p);
        p := p - 1;
      }
    }
    return None;
  }

  /** The number of bytes of the central header at `q`: the fixed part, the name, the
      extra field and the comment. */
  function EntrySize(data: seq<byte>, q: nat): (n: nat)
    requires q + CENTRAL_HEADER_LEN <= |data|
    ensures n >= CENTRAL_HEADER_LEN
  {
    CENTRAL_HEADER_LEN + ReadShort(data, q + CENTRAL_PATHLEN_OFFS) +
    ReadShort(data, q + CENTRAL_COMMENTLEN_OFFS) + ReadShort(data, q + CENTRAL_EXTRALEN_OFFS)
  }

  /** A central header at `q` with its signature, lying entirely within the file. */
  predicate EntryWithin(data: seq<byte>, q: int) {
    0 <= q && q + CENTRAL_HEADER_LEN <= |data| &&
    ReadInt(data, q) == CENTRAL_HEADER_SIG && q + EntrySize(data, q) <= |data|
  }

  /** The name of the entry at `q`. */
  function PathAt(data: seq<byte>, q: int): (path: seq<byte>)
    requires EntryWithin(data, q)
    ensures |path| == ReadShort(data, q + CENTRAL_PATHLEN_OFFS)
  {
    data[q + CENTRAL_HEADER_LEN..q + CENTRAL_HEADER_LEN + ReadShort(data, q + CENTRAL_PATHLEN_OFFS)]
  }

  /** The outcome of the directory walk as written: the entries, a rejection, or a read
      before the start of the file at offset `at`. */
  datatype WalkOutcome = Accepted(entries: seq<nat>) | Rejected | ReadsBefore(at: int)

  /** The walk of `zip_open` over `n` headers from `q` as written (zipfile.c:210-223):
      only the fixed 46 bytes of each header are checked against the end of the file,
      and nothing against its start. */
  function WalkAsWritten(data: seq<byte>, q: int, n: nat): (w: WalkOutcome)
    ensures w.Accepted? ==> |w.entries| == n
    decreases n
  {
    if n == 0 then Accepted([])
    else if q + CENTRAL_HEADER_LEN > |data| then Rejected
    else if q < 0 then ReadsBefore(q)
    else if ReadInt(data, q) != CENTRAL_HEADER_SIG then Rejected
    else
      match WalkAsWritten(data, q + EntrySize(data, q), n - 1)
      case Accepted(rest) => Accepted([q] + rest)
      case other => other
  }

  /** The walk with every header required to lie entirely within the file. */
  function Walk(data: seq<byte>, q: int, n: nat): (r: Option<seq<nat>>)
    ensures r.Some? ==> |r.value| == n && forall e :: e in r.value ==> EntryWithin(data, e)
    ensures r.Some? && n > 0 ==> r.value[0] == q
    ensures r.Some? ==> forall i :: 0 <= i < n - 1 ==>
              EntryWithin(data, r.value[i]) && r.value[i + 1] == r.value[i] + EntrySize(data, r.value[i])
    decreases n
  {
    if n == 0 then Some([])
    else if !EntryWithin(data, q) then None
    else
      match Walk(data, q + EntrySize(data, q), n - 1)
      case Some(rest) => Some([q] + rest)
      case None => None
  }

  /** Every walk the corrected check accepts, the check as written accepts with the same
      entries. */
  lemma {:induction false} WalkRefines(data: seq<byte>, q: int, n: nat)
    requires Walk(data, q, n).Some?
    ensures WalkAsWritten(data, q, n) == Accepted(Walk(data, q, n).value)
    decreases n
  {
    if n > 0 {
      WalkRefines(data, q + EntrySize(data, q), n - 1);
    }
  }

  function PrependTo(acc: seq<nat>, r: Option<seq<nat>>): Option<seq<nat>> {
    match r
    case Some(rest) => Some(acc + rest)
    case None => None
  }

  lemma PrependAssoc(acc: seq<nat>, x: seq<nat>, r: Option<seq<nat>>)
    ensures PrependTo(acc, PrependTo(x, r)) == PrependTo(acc + x, r)
  {
    if r.Some? {
      assert acc + (x + r.value) == (acc + x) + r.value;
    }
  }

  /** A walk that meets a missing header fails, whatever it has read before. */
  lemma WalkStops(data: seq<byte>, q: int, m: nat)
    requires m > 0 && !EntryWithin(data, q)
    ensures Walk(data, q, m) == None
  {
  }

  /** A header that is there is one entry, and the walk goes on past it. */
  lemma WalkStep(data: seq<byte>, q: int, m: nat)
    requires m > 0 && EntryWithin(data, q)
    ensures Walk(data, q, m) == PrependTo([q], Walk(data, q + EntrySize(data, q), m - 1))
  {
  }

  /** The checks `zip_open` makes on the header at `q`, and where the next one starts. */
  method NextHeader(data: seq<byte>, q: int) returns (ok: bool, next: int)
    ensures ok == EntryWithin(data, q)
    ensures ok ==> next == q + EntrySize(data, q)
  {
    if q + CENTRAL_HEADER_LEN > |data| || q < 0 || ReadInt(data, q) != CENTRAL_HEADER_SIG ||
       q + EntrySize(data, q) > |data| {
      return false, q;
    }
    return true, q + EntrySize(data, q);
  }

  /** The walk as a loop over `q`, as `zip_open` does it. */
  method ReadDirectory(data: seq<byte>, start: int, n: nat) returns (r: Option<seq<nat>>)
    ensures r == Walk(data, start, n)
  {
    var q := start;
    var entries: seq<nat> := [];
    var left := n;
    assert Walk(data, start, n).Some? ==> [] + Walk(data, start, n).value == Walk(data, start, n).value;
    while left > 0
      invariant |entries| + left == n
      invariant Walk(data, start, n) == PrependTo(entries, Walk(data, q, left))
    {
      var ok, next := NextHeader(data, q);
      if !ok {
        WalkStops(data, q, left);
        return None;
      }
      ghost var rest := Walk(data, next, left - 1);
      WalkStep(data, q, left);
      PrependAssoc(entries, [q], rest);
      entries := entries + [q];
      q := next;
      left := left - 1;
    }
    assert entries + [] == entries;
    return Some(entries);
  }

  /** An opened ZIP file: its bytes and the offsets of its central headers. */
  datatype ZipFile = ZipFile(data: seq<byte>, entries: seq<nat>)

  /** Every entry is a complete central header within the file. */
  predicate WellFormed(z: ZipFile) {
    forall e :: e in z.entries ==> EntryWithin(z.data, e)
  }

  /** The checks of `zip_open` (zipfile.c:124-280) on a file's bytes, with the walk as
      written and the directory start read as a signed number. */
  function OpenAsWritten(data: seq<byte>): (r: Option<WalkOutcome>)
  {
    if |data| < 4 || ReadInt(data, 0) != LOCAL_HEADER_SIG || |data| < CENTRAL_END_LEN then None
    else match LastEndSig(data, |data| - CENTRAL_END_LEN)
      case None => None
      case Some(p) =>
        var n := ReadShort(data, p + CENTRAL_ENTS_OFFS);
        if n == 0 then None
        else Some(WalkAsWritten(data, ReadIntAsWritten(data, p + CENTRAL_DIRSTART_OFFS), n))
  }

  /** `zip_open` with the directory start read unsigned and each header checked in full:
      the local-header signature first, a length of at least 22, a directory record, a
      non-zero entry count, then the walk. */
  function Open(data: seq<byte>): (r: Option<ZipFile>)
    ensures r.Some? ==> r.value.data == data && WellFormed(r.value) && |r.value.entries| > 0
  {
    if |data| < 4 || ReadInt(data, 0) != LOCAL_HEADER_SIG || |data| < CENTRAL_END_LEN then None
    else match LastEndSig(data, |data| - CENTRAL_END_LEN)
      case None => None
      case Some(p) =>
        var n := ReadShort(data, p + CENTRAL_ENTS_OFFS);
        if n == 0 then None
        else match Walk(data, ReadInt(data, p + CENTRAL_DIRSTART_OFFS), n)
          case None => None
          case Some(es) => Some(ZipFile(data, es))
  }

  /** The file as opened, as a method over the loops above. */
  method OpenFile(data: seq<byte>) returns (r: Option<ZipFile>)
    ensures r == Open(data)
  {
    if |data| < 4 || ReadInt(data, 0) != LOCAL_HEADER_SIG || |data| < CENTRAL_END_LEN {
      return None;
    }
    var p := FindEndRecord(data);
    if p.None? {
      return None;
    }
    var n := ReadShort(data, p.value + CENTRAL_ENTS_OFFS);
    if n == 0 {
      return None;
    }
    var es := ReadDirectory(data, ReadInt(data, p.value + CENTRAL_DIRSTART_OFFS), n);
    if es.None? {
      return None;
    }
    return Some(ZipFile(data, es.value));
  }

  /** A 72-byte file: the local-header signature, one central header at offset 4 whose
      name length is 200, and the directory record at offset 50. */
  function LongNameFile(): seq<byte> {
    Le32(LOCAL_HEADER_SIG) + Le32(CENTRAL_HEADER_SIG) + seq(24, _ => 0) + Le16(200) + seq(16, _ => 0) +
    Le32(CENTRAL_END_SIG) + seq(4, _ => 0) + Le16(1) + seq(6, _ => 0) + Le32(4) + seq(2, _ => 0)
  }

  /** As written, the file above opens with one entry whose 200-byte name runs 174 bytes
      past the end of the file; the corrected walk rejects it. */
  lemma LongNameAsWritten()
    ensures WalkAsWritten(LongNameFile(), 4, 1) == Accepted([4])
    ensures 4 + CENTRAL_HEADER_LEN + 200 > |LongNameFile()|
    ensures Walk(LongNameFile(), 4, 1).None?
  {
    var d := LongNameFile();
    assert |d| == 72;
    assert d[4..8] == Le32(CENTRAL_HEADER_SIG);
    ReadIntLe32(d, 4, CENTRAL_HEADER_SIG);
    assert d[32..34] == Le16(200);
    ReadShortLe16(d, 32, 200);
    assert !EntryWithin(d, 4);
  }

  /** As written, a directory start with the top bit set, here 0xFFFFFFFF, makes the walk
      read the byte before the file; the corrected reading of the start rejects it. */
  lemma NegativeStartAsWritten(data: seq<byte>, p: nat)
    requires CENTRAL_HEADER_LEN <= |data| < 0x8000_0000 && p + CENTRAL_END_LEN <= |data|
    requires data[p + CENTRAL_DIRSTART_OFFS..p + CENTRAL_DIRSTART_OFFS + 4] == [255, 255, 255, 255]
    ensures ReadIntAsWritten(data, p + CENTRAL_DIRSTART_OFFS) == -1
    ensures WalkAsWritten(data, -1, 1) == ReadsBefore(-1)
    ensures Walk(data, ReadInt(data, p + CENTRAL_DIRSTART_OFFS), 1).None?
  {
    var q := p + CENTRAL_DIRSTART_OFFS;
    assert data[q] == 255 && data[q + 1] == 255 && data[q + 2] == 255 && data[q + 3] == 255 by {
      assert data[q..q + 4][0] == data[q] && data[q..q + 4][1] == data[q + 1];
      assert data[q..q + 4][2] == data[q + 2] && data[q..q + 4][3] == data[q + 3];
    }
    assert ReadInt(data, q) == 0xFFFF_FFFF;
  }

  /** The date and time fields of an entry, as `zip_vtab_column` prints them. */
  datatype Stamp = Stamp(year: int, month: int, day: int, hour: int, minute: int, second: int)

  /** The MS-DOS date and time words decoded (zipfile.c:756-766): the year counts from
      1980 in the top seven bits of the date, the seconds are stored halved. */
  function DosStamp(time: nat, date: nat): (s: Stamp)
    requires time < 0x1_0000 && date < 0x1_0000
    ensures 1980 <= s.year <= 2107 && 0 <= s.month <= 15 && 0 <= s.day <= 31
    ensures 0 <= s.hour <= 31 && 0 <= s.minute <= 63 && 0 <= s.second <= 62 && s.second % 2 == 0
  {
    Stamp(date / 512 + 1980, (date / 32) % 16, date % 32, time / 2048, (time / 32) % 64, (time % 32) * 2)
  }

  /** The date and time words for a stamp that fits the fields. */
  function DosWords(s: Stamp): (tw: (nat, nat))
    requires 1980 <= s.year <= 2107 && 0 <= s.month <= 15 && 0 <= s.day <= 31
    requires 0 <= s.hour <= 31 && 0 <= s.minute <= 63 && 0 <= s.second <= 62
    ensures tw.0 < 0x1_0000 && tw.1 < 0x1_0000
  {
    (s.hour * 2048 + s.minute * 32 + s.second / 2, (s.year - 1980) * 512 + s.month * 32 + s.day)
  }

  /** Decoding the words of a stamp gives the stamp back, up to the odd second. */
  lemma DosStampRoundTrip(s: Stamp)
    requires 1980 <= s.year <= 2107 && 0 <= s.month <= 15 && 0 <= s.day <= 31
    requires 0 <= s.hour <= 31 && 0 <= s.minute <= 63 && 0 <= s.second <= 62 && s.second % 2 == 0
    ensures DosStamp(DosWords(s).0, DosWords(s).1) == s
  {
    Unpack(s.year - 1980, s.month, s.day, 16);
    Unpack(s.hour, s.minute, s.second / 2, 64);
  }

  /** The three fields of a packed word come back out of it. */
  lemma Unpack(a: nat, b: nat, c: nat, m: nat)
    requires 0 < m && b < m && c < 32
    ensures var x := a * (m * 32) + b * 32 + c;
      x / (m * 32) == a && (x / 32) % m == b && x % 32 == c
  {
    var x := a * (m * 32) + b * 32 + c;
    var y := a * m + b;
    assert x == y * 32 + c;
    DivPlus(y, c, 32);
    DivPlus(a, b, m);
    DivPlus(a, b * 32 + c, m * 32);
  }

  lemma DivPlus(q: nat, r: nat, d: nat)
    requires r < d
    ensures (q * d + r) / d == q && (q * d + r) % d == r
  {
    var x := q * d + r;
    var k := x / d;
    assert d * (k - q) == r - x % d;
    if k > q {
      MulAtLeast(d, k - q);
    } else if k < q {
      MulAtLeast(d, q - k);
    }
  }

  lemma MulAtLeast(d: nat, n: nat)
    requires n >= 1
    ensures d * n >= d
  {
  }

  /** Every word pair decodes to a stamp whose words are the same pair. */
  lemma DosWordsRoundTrip(time: nat, date: nat)
    requires time < 0x1_0000 && date < 0x1_0000
    ensures DosWords(DosStamp(time, date)) == (time, date)
  {
    var s := DosStamp(time, date);
    assert date == (date / 512) * 512 + ((date / 32) % 16) * 32 + date % 32;
    assert time == (time / 2048) * 2048 + ((time / 32) % 64) * 32 + time % 32;
  }

  function Digit(n: nat): char
    requires n < 10
  {
    "0123456789"[n]
  }

  /** `%02d` and `%04d` of a number below 100 or 10000. */
  function Dec2(n: nat): (s: string)
    requires n < 100
    ensures |s| == 2
  {
    [Digit(n / 10), Digit(n % 10)]
  }

  function Dec4(n: nat): (s: string)
    requires n < 10000
    ensures |s| == 4
  {
    Dec2(n / 100) + Dec2(n % 100)
  }

  /** The text of the "mtime" column: "YYYY-MM-DD HH:MM:SS". */
  function MTimeText(time: nat, date: nat): (t: string)
    requires time < 0x1_0000 && date < 0x1_0000
    ensures |t| == 19
  {
    var s := DosStamp(time, date);
    Dec4(s.year) + "-" + Dec2(s.month) + "-" + Dec2(s.day) + " " +
    Dec2(s.hour) + ":" + Dec2(s.minute) + ":" + Dec2(s.second)
  }

  /** `unquote` (zipfile.c:319-339): the string without its first and last characters when
      it has at least two, the first is a single or double quote, and the last is the same
      quote; otherwise the string itself. */
  function Unquote(s: CString): (r: CString)
    ensures |s| >= 2 && (s[0] == '"' || s[0] == '\'') && s[|s| - 1] == s[0] ==> r == s[1..|s| - 1]
    ensures !(|s| >= 2 && (s[0] == '"' || s[0] == '\'') && s[|s| - 1] == s[0]) ==> r == s
  {
    if |s| > 0 && (s[0] == '"' || s[0] == '\'') then
      var i := |s| - 1;
      if i > 0 && s[i] == s[0] then s[1..i] else s
    else s
  }

  /** A quoted name comes back unchanged from quoting and unquoting. */
  lemma UnquoteQuoted(name: CString, q: char)
    requires q == '"' || q == '\''
    ensures Unquote([q] + name + [q]) == name
  {
    var s := [q] + name + [q];
    assert s[1..|s| - 1] == name;
  }
}
