# sqliteodbc core in Dafny

This project models the parts of the SQLite ODBC driver (`sqliteodbc.c`) that hold its
own logic, and three small programs that ship with it: the ZIP virtual table
(`zipfile.c`), the SQL import/export helpers (`impexp.c`), and the string-replacement
filter `fixup.c`. Each module states what the C code does as Dafny functions, methods
and classes, and proves properties of it.

- `CStrings`: character classes, `strtol` in base 10, the scan for a character, and
  counting. These are shared by
  the other modules.
- `SqlFixup` (`fixupsql`): rewrites an ODBC SQL text into the printf template the driver
  hands to SQLite.
  - Backquotes outside literals become single quotes, `?` becomes `'%q'` and `%` is doubled.
  - A `{fn ...}`/`{d '...'}` escape clause is reduced to its literal.
  - A trailing `;` ends the text, and the leading `select` sets `isselect`.
  - The loop over a character buffer is proved to write what a recursive function
    describes, and to fit its allocation.
- `TypeMap` (`mapsqltype`, `getmd`): the ODBC type code and "unsigned" flag of a column
  declaration, and its display size and precision.
- `DateTime` (`str2date`, `str2time`, `str2timestamp`): the three literal parsers.
  - The compact digit-run form is covered for all three.
  - The separated forms are covered: `Y-M-D` and `H:M:S`, and for timestamps
    `Y-M-D h:m:s.f` and the time-first `h:m:s Y-M-D`.
  - The timestamp loop is modelled both as written and with the guard that keeps it
    inside the string.
- `ConnAttr` (`getdsnattr`, `strmak`):
  - the look-up of a key in a `key=value;...` connect string, against a reference
    look-up on the pairs;
  - the bounded copy used to return strings.
- `Cursor`: how `drvfetchscroll` and `SQLFetch` move the row pointer, and how the
  character branch of `getrowdata` hands out a long value in pieces.
- `Transactions` (`endtran`, the SQL_AUTOCOMMIT case of `drvsetconnectoption`): the
  statements run, the transaction flag and the return code.
- `Handles`: the ENV, DBC and STMT handles as classes. This covers:
  - their linked lists, with allocation appending at the tail and freeing unlinking;
  - `drvbindparam`, `SQLFetch`, `drvfetchscroll` and `SQLGetData` on character targets;
  - `drvsetcursorname`, and `endtran` and `drvsetconnectoption` on a connection.
- `Functions` (`SQLGetFunctions`): the table of implemented API functions and its ODBC 2
  and ODBC 3 forms.
- `ZipDir` (`zip_read_int`, `zip_read_short`, `zip_open`, the "mtime" column, `unquote`):
  - decoding little-endian fields;
  - the backward search for the end-of-central-directory record;
  - the walk over the central headers (PKWARE APPNOTE.TXT, sections 4.3.12 and 4.3.16);
  - the MS-DOS date and time (section 4.4.6).
- `ZipCursor` (`zip_vtab_filter`, `next`, `eof`, `rowid`, the row read by `column`):
  - the EQ/MATCH scan over the sorted names;
  - the in-place compaction of the match flags;
  - the cursor as a class.
- `SqlScript` (`ends_with_semicolon`, `all_whitespace`, `append`, `process_input`, the
  mode argument of `export_sql`, `dump_cb`): how a script is cut into statements, and
  how the dump builds quoted names.
- `Fixup` (`fixup.c`): the argument check, the `@file` substitution and the per-line
  replacement.

Calls into SQLite and the operating system are parameters: `sqlite_exec` outcomes,
`sqlite3_complete`, the file contents, and the handle's address.

## Model

| member | source | states |
|---|---|---|
| `SqlFixup.ForwardQuote` | sqliteodbc.c:572-574 | the forward scan stops at the first quote before `end2`, or at `end2` |
| `SqlFixup.BackQuote` | sqliteodbc.c:575-577 | the backward scan stops at the last quote after `start`, or at `start` |
| `SqlFixup.EscapeClause` | sqliteodbc.c:561-588 | a recognised clause ends at a `}` after the `{`, and what it copies is no longer than the clause and is a single quote or a text of two or more characters |
| `SqlFixup.Rewrite` | sqliteodbc.c:512-594 | the reference scan: the turns of the loop one after the other, ending at the end of the text or at a `;` outside literals |
| `SqlFixup.Fixup` | sqliteodbc.c:487-612 | the reference result: refused with "only one SQL statement allowed", or the rewritten text, its `?` markers and `*isselect` |
| `SqlFixup.ScanTo` | sqliteodbc.c:512-594 | the part of the scan up to a given index: what it writes and counts, and the quote state it arrives in |
| `SqlFixup.FindEscapeClause` | sqliteodbc.c:563-588 | the loops over `end`, `start` and `end2` recognise exactly the clauses `EscapeClause` does and copy the same literal |
| `SqlFixup.FindForwardQuote` | sqliteodbc.c:572-574 | the loop stops where `ForwardQuote` says |
| `SqlFixup.FindBackQuote` | sqliteodbc.c:575-577 | the loop stops where `BackQuote` says |
| `SqlFixup.RewriteBound` | sqliteodbc.c:502-595 | every input character yields at most four output characters |
| `SqlFixup.RewriteTurn` | sqliteodbc.c:512-594 | a turn that goes on moves strictly forward, writes at most four characters per character consumed, and is inside a literal only after the first character; the scan ends only at the end of the text or at a `;` outside literals |
| `SqlFixup.ScanToSplits` | sqliteodbc.c:512-594 | the scan from `j` is what it writes up to any index `k` it reaches, followed by the scan from `k` in the quote state it reaches `k` in |
| `SqlFixup.SemicolonEndsScan` | sqliteodbc.c:542-556 | for a `;` at any index the scan reaches outside a literal, the text is refused exactly when something other than white space follows it, and otherwise the result is what was written before the `;` |
| `SqlFixup.RefusedAtSemicolon` | sqliteodbc.c:542-553 | a refused scan from any index reached a `;` outside literals that more than white space follows |
| `SqlFixup.RejectedHasSemicolon` | sqliteodbc.c:549-552 | `fixupsql` refuses a text only at a `;` that the scan reaches outside a literal and that more than white space follows |
| `SqlFixup.SemicolonTurn` | sqliteodbc.c:542-556 | at a `;` outside literals, only white space after it ends the scan with the text so far, and anything else refuses the text |
| `SqlFixup.ScanComplete` | sqliteodbc.c:595-611 | a scan that reaches the end gives the text written, its markers and `*isselect`, at most four times the input long |
| `SqlFixup.FixupFits` | sqliteodbc.c:502-596 | with a buffer of `4n + 1` bytes the rewritten text and its NUL always fit |
| `SqlFixup.TerminatorOverflowsAsWritten` | sqliteodbc.c:502-596 | the input `?` becomes `'%q'`, which fills the `4n`-byte buffer as written, so the NUL lands past its end |
| `SqlFixup.Escaped` | sqliteodbc.c:531-560 | the reference rewriting of ordinary text grows by three characters per `?` and one per `%` |
| `SqlFixup.PlainRun` | sqliteodbc.c:531-560 | outside literals a run without quotes, backticks, `;` or `{` becomes `Escaped` of it, and its `?` are counted |
| `SqlFixup.PlainStatement` | sqliteodbc.c:487-612 | for such a statement the result is `Escaped(sql)` and `*nparam` is its number of `?` |
| `SqlFixup.SecondStatementRejected` | sqliteodbc.c:542-556 | a `;` outside literals followed by anything but white space makes the call fail with "only one SQL statement allowed" |
| `SqlFixup.TrailingSemicolonDropped` | sqliteodbc.c:542-556 | a `;` followed only by white space is dropped together with that white space |
| `SqlFixup.Doubled` | sqliteodbc.c:557-560 | inside a literal the text grows by one character per `%` |
| `SqlFixup.InLiteralRun` | sqliteodbc.c:506-595 | inside a literal a run without quotes is copied with `%` doubled, and nothing in it is counted |
| `SqlFixup.QuotedLiteral` | sqliteodbc.c:521-560 | a literal without embedded quotes is copied between its quotes with `%` doubled; a `?`, `;`, backtick or `{` inside it is neither rewritten nor counted |
| `SqlFixup.OpeningQuote` | sqliteodbc.c:521-530 | a quote outside a literal opens one and is copied |
| `SqlFixup.ClosingQuote` | sqliteodbc.c:521-530 | a quote inside a literal whose predecessor is not a quote closes it |
| `SqlFixup.EmptyLiteralKeepsQuoteOpen` | sqliteodbc.c:521-530 | the text `'' ?` comes back unchanged with no parameter counted, because the second quote follows a quote and does not close the literal |
| `SqlFixup.EscapeClauseReduced` | sqliteodbc.c:561-588 | `{tag 'lit'}` outside literals becomes `'lit'` and the scan resumes after the `}` |
| `SqlFixup.EscapeClauseFound` | sqliteodbc.c:563-588 | the three scans find the `}`, the first quote and the last quote of `{tag 'lit'}` |
| `SqlFixup.CopyInto` | sqliteodbc.c:581-584 | the characters are appended at `p` and everything before `p` is kept |
| `SqlFixup.StartsWithSelect` | sqliteodbc.c:600-608 | `*isselect` is true exactly when the text starts with `select`, in any case, after white space |
| `SqlFixup.OnlySpaceAfter` | sqliteodbc.c:545-548 | the loop after a `;` reports whether only white space follows |
| `SqlFixup.SkipSpace` | sqliteodbc.c:603-605 | the index returned follows only white space and is not itself white space |
| `SqlFixup.StepText` | sqliteodbc.c:513-594 | one character (or one escape clause) yields at most four characters per input character consumed, in agreement with `Rewrite` |
| `SqlFixup.OtherText` | sqliteodbc.c:561-592 | a character with no rule of its own is copied, and a `{` outside literals may instead yield its escape clause |
| `SqlFixup.Step` | sqliteodbc.c:513-595 | one turn of the loop writes exactly what `Rewrite` emits for that character and keeps the text written before |
| `SqlFixup.FixupSql` | sqliteodbc.c:487-612 | the loop over a buffer of `4n + 1` bytes returns what `Fixup` describes, and the text is at most four times the input |
| `TypeMap.SqlType` | sqliteodbc.c:391-418 | the code is one of the ten the driver reports |
| `TypeMap.NoSign` | sqliteodbc.c:420-426 | `*nosign` is 0 exactly when the type is an integer type and the name does not contain "unsigned", and it is always 0 or 1 |
| `TypeMap.MapSqlType` | sqliteodbc.c:377-429 | the result and `*nosign` are the classification of the name lower-cased in place |
| `TypeMap.SqlTypeMeaning` | sqliteodbc.c:391-418 | each code, both ways: "int" or "mediumint" but not "inter" is INTEGER, "timestamp" or "datetime" is TIMESTAMP, "time" only when not "timestamp", "date" only when not "datetime", and so on for every prefix |
| `TypeMap.ParenAtFirst` | sqliteodbc.c:462 | the `%*[^(]` part stops at the first `(` of the text |
| `TypeMap.ScanPair` | sqliteodbc.c:464 | when `%d,%d` matches, its first number is what `%d` alone reads at the same place |
| `TypeMap.ScanTwo` | sqliteodbc.c:462-464 | whenever the two-number pattern matches, the one-number pattern matches too, with the same number |
| `TypeMap.GetMd` | sqliteodbc.c:440-475 | for a listed type, when the two-number pattern matches, size and precision are both its first number |
| `TypeMap.GetMdCorrected` | sqliteodbc.c:440-475 | `getmd` with the two-number pattern tried first |
| `TypeMap.GetMdDefaults` | sqliteodbc.c:445-458 | a name without `(`, or a type not listed, keeps the values of the `switch` |
| `TypeMap.GetMdOneNumber` | sqliteodbc.c:462-463 | `name(n)` sets the size and the precision to `n` |
| `TypeMap.GetMdTwoNumbers` | sqliteodbc.c:464-466 | with the two-number pattern tried first, `name(p,s)` gives size `p` and precision `s` |
| `TypeMap.GetMdPairAsWritten` | sqliteodbc.c:462-466 | as written, `name(p,s)` gives size `p` and precision `p` |
| `TypeMap.DecimalIsVarchar` | sqliteodbc.c:391-418 | a name such as `decimal(...)` matches no prefix of `mapsqltype`, so the column is VARCHAR |
| `TypeMap.DecimalPairAsWritten` | sqliteodbc.c:462-466 | `decimal(10,2)`, which `mapsqltype` reports as VARCHAR, gets precision 10 as written and 2 as intended |
| `DateTime.FieldStep` | sqliteodbc.c:717-744 | one turn of the field loop either stops or moves strictly forward with a field index below 3 |
| `DateTime.Fields` | sqliteodbc.c:717-744 | the reference for the separated-field loop of `str2date` and `str2time`: the code and the three fields |
| `DateTime.ParseDate` | sqliteodbc.c:688-746 | the reference for `str2date`: compact digits first, otherwise the separated fields |
| `DateTime.ParseTime` | sqliteodbc.c:758-816 | the reference for `str2time`: compact digits first, otherwise the separated fields |
| `DateTime.SkipNonDigits` | sqliteodbc.c:696-698 | the loop stops at the first digit, or the end of the text |
| `DateTime.SkipDigits` | sqliteodbc.c:701-704 | the loop stops at the first non-digit, or the end of the text |
| `DateTime.ScanFields` | sqliteodbc.c:717-744 | the loop returns the code and fields that `Fields` describes |
| `DateTime.Str2Date` | sqliteodbc.c:688-746 | the method returns what `ParseDate` describes |
| `DateTime.Str2Time` | sqliteodbc.c:758-816 | the method returns what `ParseTime` describes |
| `DateTime.NoDigitDate` | sqliteodbc.c:717-725 | a text without digits gives -1 and year, month and day 0 |
| `DateTime.NoDigitTime` | sqliteodbc.c:787-795 | a text without digits gives -1 and hour, minute and second 0 |
| `DateTime.CompactDate` | sqliteodbc.c:705-715 | when the first digit run has at least 8 digits, year, month and day are its digits 0-3, 4-5 and 6-7 |
| `DateTime.CompactTime` | sqliteodbc.c:775-785 | when the first digit run has at least 6 digits, hour, minute and second are its digits 0-1, 2-3 and 4-5 |
| `DateTime.FieldThenSeparator` | sqliteodbc.c:726-737 | a number followed by a separator fills the current field and the scan resumes after the separator with the next field |
| `DateTime.LastField` | sqliteodbc.c:726-737 | a number that ends the text fills the third field and ends the scan with 0 |
| `DateTime.SeparatedFields` | sqliteodbc.c:717-744 | three digit runs joined by separators give the three fields in order and return 0 |
| `DateTime.SeparatedDate` | sqliteodbc.c:688-746 | `Y-M-D` and `Y/M/D` give that year, month and day |
| `DateTime.SeparatedTime` | sqliteodbc.c:758-816 | `H:M:S` gives that hour, minute and second |
| `DateTime.TsStep` | sqliteodbc.c:876-978 | one turn of the timestamp loop stops, or moves strictly forward, and it steps past the end of the text only without the guard |
| `DateTime.TsLoop` | sqliteodbc.c:876-978 | with the `if (*q)` guard the loop never reads past the terminating NUL |
| `DateTime.ScaleUp` | sqliteodbc.c:961-964 | the loop multiplies the fraction by ten until it has nine digits |
| `DateTime.TimestampTurn` | sqliteodbc.c:877-975 | one turn of the loop, with the guard, does what `TsStep` describes |
| `DateTime.NextDateField` | sqliteodbc.c:916-922 | after a date field the loop moves on as `DateTurn` describes |
| `DateTime.NextTimeField` | sqliteodbc.c:930-952 | after a time field the loop moves on as `TimeTurn` describes, including the space that opens a fraction unless a date follows it |
| `DateTime.DateFieldTurn` | sqliteodbc.c:884-923 | a year or month followed by `-` or `/` is stored and the loop resumes after the separator with the next field |
| `DateTime.DayTurn` | sqliteodbc.c:914-919 | the day completes the date: the date bit is set and the loop resumes at the next digit |
| `DateTime.TimeFieldTurn` | sqliteodbc.c:893-898 | an hour or minute followed by `:` is stored and the loop resumes after the `:` with the next field |
| `DateTime.SecondTurn` | sqliteodbc.c:928-949 | the seconds complete the time, and the character after them decides how the loop goes on |
| `DateTime.DotOpensFraction` | sqliteodbc.c:933-936 | a `.` after the seconds opens the fraction |
| `DateTime.SpaceOpensDate` | sqliteodbc.c:937-944 | a space after the seconds, before a number followed by `-`, leaves the date to be read next when it is not read yet |
| `DateTime.FractionTurn` | sqliteodbc.c:954-968 | the fraction digits are scaled to nine digits and the fraction bit is set |
| `DateTime.DateGroup` | sqliteodbc.c:908-923 | three numbers joined by the separator that opens the date set year, month and day, and the loop goes on after the day |
| `DateTime.TimeGroup` | sqliteodbc.c:924-953 | three numbers joined by `:` set hour, minute and second, and the loop goes on as the character after the seconds decides |
| `DateTime.DateAt` | sqliteodbc.c:908-923 | for three digit runs the date fields are the runs' decimal values |
| `DateTime.TimeAt` | sqliteodbc.c:924-953 | for three digit runs the time fields are the runs' decimal values |
| `DateTime.SeparatedLoop` | sqliteodbc.c:876-978 | the loop over `Y-M-D h:m:s.f` returns 0 with all seven fields read |
| `DateTime.SeparatedTimestamp` | sqliteodbc.c:829-980 | `Y-M-D h:m:s.f` and `Y/M/D h:m:s.f`, with a year below 14 digits, give that date and time, and the fraction scaled to nine digits |
| `DateTime.TimeFirstLoop` | sqliteodbc.c:876-978 | the loop over `h:m:s Y-M-D` reads the time, then the date, and returns 0 with fraction 0 |
| `DateTime.TimeFirstTimestamp` | sqliteodbc.c:829-980 | the time-first form `h:m:s Y-M-D`, with an hour below 14 digits, gives that date and time with fraction 0 |
| `DateTime.PadFraction` | sqliteodbc.c:862-871 | the fraction digits are padded with zeros to nine and read in base 10 |
| `DateTime.Str2Timestamp` | sqliteodbc.c:829-980 | the method returns what the corrected `ParseTimestamp` describes |
| `DateTime.ParseTimestamp` | sqliteodbc.c:829-980 | the reference for `str2timestamp` with the guard on both `++q` steps and a decimal fraction |
| `DateTime.ParseTimestampAsWritten` | sqliteodbc.c:829-980 | `str2timestamp` as written: an octal compact fraction, and no guard, so a step past the NUL is a distinct outcome |
| `DateTime.NoDigitTimestamp` | sqliteodbc.c:877-882 | a text without digits gives -1 and every field 0 |
| `DateTime.DecimalZeros` | sqliteodbc.c:866-869 | appending `k` zeros multiplies the value of a digit run by 10 to the `k` |
| `DateTime.DecimalFraction` | sqliteodbc.c:862-871 | the corrected fraction is the digits' decimal value scaled to nine digits |
| `DateTime.CompactTimestamp` | sqliteodbc.c:848-873 | a first digit run longer than 14 gives the six fields from its digit groups and the fraction from the digits after the fourteenth |
| `DateTime.FractionOctalAsWritten` | sqliteodbc.c:871 | as written the fraction "05" is read in octal as 10485760, where 50000000 is meant |
| `DateTime.OverrunAsWritten` | sqliteodbc.c:920-922 | as written "2002-05" steps past the NUL after the month; with the guard it returns -1 with year 2002 and month 5 |
| `ConnAttr.SkipRun` | sqliteodbc.c:3990-3992 | the index returned is the first character at or after `i` that is not `c` |
| `ConnAttr.DsnAttr` | sqliteodbc.c:3983-4018 | the reference look-up on the connect string: the value of the first pair whose key equals `attr` ignoring case |
| `ConnAttr.AttrStep` | sqliteodbc.c:3990-4015 | a pass of the outer loop that does not decide moves strictly forward |
| `ConnAttr.SkipChars` | sqliteodbc.c:3990-3992 | the loop stops where `SkipRun` says |
| `ConnAttr.FindAttr` | sqliteodbc.c:3989-4017 | the scan over the pairs finds the value `DsnAttr` describes |
| `ConnAttr.PutValue` | sqliteodbc.c:4008-4010 | the value is cut to `outLen - 1` characters and NUL-terminated |
| `ConnAttr.GetDsnAttr` | sqliteodbc.c:3983-4018 | returns 1 exactly when a pair's key equals `attr` ignoring case and leaves its value, cut and terminated, in `out`; returns 0 otherwise and leaves `out` alone |
| `ConnAttr.EntryStep` | sqliteodbc.c:3989-4015 | on a well-formed pair the pass returns its value when the key matches and otherwise resumes at the `;` after it |
| `ConnAttr.Lookup` | sqliteodbc.c:3983-4018 | the independent look-up on a list of pairs: the value of the first pair whose key equals `attr` ignoring case |
| `ConnAttr.TailLookup` | sqliteodbc.c:3989-4017 | on `;k1=v1;k2=v2...` the scan agrees with the reference lookup of the first matching key |
| `ConnAttr.JoinLookup` | sqliteodbc.c:3983-4018 | on `k1=v1;k2=v2...` built from pairs without `;` or `=` in the keys, the attribute found is the value of the first pair whose key equals `attr` ignoring case, and there is none when no key matches |
| `ConnAttr.KeyWithoutValueHidesNext` | sqliteodbc.c:3993-3996 | in `flag;k=v` the key is read across the `;` up to the `=`, so `k` is not found; in `k=v` it is found under `K` |
| `ConnAttr.StrMak` | sqliteodbc.c:2918-2923 | copies at most `max` characters of `src` and its NUL, reports `min(strlen(src), max)`, NUL-terminates only when `src` is shorter than `max`, and changes nothing after the copy |
| `Cursor.ScrollAsWritten` | sqliteodbc.c:5951-5983 | as written, any row fetched by an orientation other than PRIOR is below `nrows`, any row fetched by one other than NEXT is at least 0, and exactly the orientations outside NEXT, PRIOR, FIRST, LAST and ABSOLUTE give SQL_ERROR |
| `Cursor.Scroll` | sqliteodbc.c:5951-5983 | with NEXT stopping at "after the last row", from any position in [-1, nrows] every row fetched exists and the cursor stays in [-1, nrows]; the same orientations are rejected |
| `Cursor.NextAsWritten` | sqliteodbc.c:5887-5893 | `SQLFetch` never rejects, and moves as FETCH_NEXT of `drvfetchscroll` does except from below -1 |
| `Cursor.Next` | sqliteodbc.c:5887-5893 | from a valid position `SQLFetch` agrees with the corrected FETCH_NEXT and fetches exactly when another row exists |
| `Cursor.NextWalksForward` | sqliteodbc.c:5952-5955 | `k` corrected FETCH_NEXT calls from position `p` leave the cursor at `min(p + k, nrows)` |
| `Cursor.PriorPastEndAsWritten` | sqliteodbc.c:5952-5962 | as written, on a one-row result, NEXT three times then PRIOR fetches row 1, which does not exist; the corrected rule fetches row 0 |
| `Cursor.CharChunk` | sqliteodbc.c:4898-4934 | SQL_NO_DATA exactly when a chunked read has passed the end of a non-empty value, and then the offset is reset; each piece fits the buffer with its NUL, starts at the stored offset, and advances it by what was copied; SQL_SUCCESS_WITH_INFO exactly when data remains; without a buffer the remaining length is reported; an empty value read from an offset above 0 gives the negative length minus that offset and no text |
| `Cursor.ScratchOverrunAsWritten` | sqliteodbc.c:4922-4924 | a column bound with no value pointer and a length of 100 stores the NUL at index 99 of the 16-byte `valdummy` |
| `Cursor.TerminatorAsWritten` | sqliteodbc.c:4922-4924 | where the NUL goes as written: index `len - 1` of the caller's buffer, or of `valdummy` when there is none |
| `Cursor.PiecesReassemble` | sqliteodbc.c:4898-4934 | the pieces returned until SQL_NO_DATA, joined, are the value from the starting offset on, and every piece but the last fills the buffer |
| `Cursor.EmptyValueNeverEnds` | sqliteodbc.c:4903-4910 | an empty value never gives SQL_NO_DATA: every chunked call succeeds with length 0 |
| `Cursor.StaleOffsetAsWritten` | sqliteodbc.c:4903-4931 | an empty value whose offset was left at 1 is reported as SQL_NULL_DATA, while from offset 0 it reads back as an empty string |
| `Transactions.FailureText` | sqliteodbc.c:2395-2401 | the message recorded is at most 1023 characters and is the start of the error text when there is one |
| `Transactions.EndTranAsWritten` | sqliteodbc.c:2370-2415 | statements are run exactly when the handle is connected, not in autocommit, in a transaction, and the completion type is COMMIT or ROLLBACK; then `intrans` is cleared, otherwise it is unchanged |
| `Transactions.FailedCommitSucceedsAsWritten` | sqliteodbc.c:2393-2410 | as written a COMMIT that fails, followed by a ROLLBACK that succeeds, returns SQL_SUCCESS; corrected it returns SQL_ERROR |
| `Transactions.EndTran` | sqliteodbc.c:2370-2415 | runs the same statements and leaves the same `intrans` as written, but SQL_SUCCESS for a COMMIT means the COMMIT itself succeeded |
| `Transactions.SetAutocommitAsWritten` | sqliteodbc.c:3943-3952 | as written `autocommit` becomes `param == SQL_AUTOCOMMIT_ON`, yet no statement is ever run and `intrans` never changes |
| `Transactions.AutocommitLeavesTransactionOpenAsWritten` | sqliteodbc.c:3944-3946 | switching autocommit on in an open transaction returns SQL_SUCCESS with the transaction still open and no COMMIT; corrected, the COMMIT runs and the transaction ends |
| `Transactions.SetAutocommit` | sqliteodbc.c:3943-3952 | on a connected handle switching autocommit on always ends the open transaction, with COMMIT first; switching it off runs nothing |
| `Handles.Bound` | sqliteodbc.c:1637-1667 | after a bind of parameter `pnum` there are max(10, pnum) slots on the first bind and max(old count, pnum) later; slot `pnum - 1` holds the new binding, every other old slot is kept and every new one is cleared |
| `Handles.Slots` | sqliteodbc.c:1638-1662 | the slot count before the store: max(10, pnum) while there are no slots, otherwise the old count grown to `pnum` when needed |
| `Handles.Stmt.SlotArray` | sqliteodbc.c:1638-1662 | the array stored into is the current one, or a fresh copy grown with cleared slots, or a fresh cleared one, with exactly the contents `Slots` gives |
| `Handles.Stmt.BindParam` | sqliteodbc.c:1616-1669 | parameter number 0 is refused with S1093 "invalid parameter" and no slot changes; any other number succeeds and leaves exactly the slots `Bound` describes, nothing else of the statement changing |
| `Handles.FirstFailing` | sqliteodbc.c:5895-5904 | the first bound column, from `i` on, that has a buffer or length pointer and a C type no branch converts; every column before it converts |
| `Handles.ResetOffsets` | sqliteodbc.c:5898 | the first `n` columns have their read offset reset to 0 and the others are untouched |
| `Handles.StaleOffsetSurvivesAsWritten` | sqliteodbc.c:5895-5904 | as written a fetch whose first column cannot be filled stops before the second, whose offset stays where `SQLGetData` left it; the corrected fetch clears it |
| `Handles.Stmt.FillRowAsWritten` | sqliteodbc.c:5894-5905 | the fetch loop resets the offsets up to and including the first column that cannot be filled, stops there with SQL_ERROR, and returns SQL_SUCCESS when every column converts |
| `Handles.Stmt.FillRow` | sqliteodbc.c:5894-5905 | the same return code, with the offset of every column reset, also after a column that cannot be filled |
| `Handles.Stmt.Fetch` | sqliteodbc.c:5860-5906 | no column bindings give SQL_ERROR; no result rows give SQL_NO_DATA; otherwise the cursor moves as `Cursor.Next` says and a row is filled as `FillRow` does, every offset reset; the result set itself is never changed |
| `Handles.Stmt.FetchScroll` | sqliteodbc.c:5916-5996 | the same as `Fetch`, with the new position taken from `Cursor.Scroll`; an unknown direction gives SQL_ERROR and leaves the cursor where it was |
| `Handles.Stmt.GetData` | sqliteodbc.c:5835-5852 | a column number out of range gives S1002 "invalid column"; no current row gives SQL_NO_DATA; SQL NULL gives SQL_NULL_DATA; otherwise the buffer, length and column offset are those `Cursor.CharChunk` gives for the stored offset |
| `Handles.CursorName` | sqliteodbc.c:4579-4585 | the stored name is a prefix of the given one, at most 31 characters long, and for SQL_NTS or any length of 31 or more it is as long as the name allows |
| `Handles.Stmt.SetCursorName` | sqliteodbc.c:4563-4587 | a missing name or one not starting with a letter is refused with S1C00 "invalid cursor name" and the buffer is unchanged; otherwise the buffer holds `CursorName`, padded with NULs up to the terminator, and the rest of the buffer is unchanged |
| `Handles.HexLength` | sqliteodbc.c:4412 | a number below 16^k has at most k hexadecimal digits, so the default name fits the 32-character buffer |
| `Handles.DefaultCursorName` | sqliteodbc.c:4412 | the default name starts with "CUR_", so it is a valid cursor name, and is at most 20 characters long |
| `Handles.Stmt.constructor` | sqliteodbc.c:4400-4412 | a new statement has no rows, no bindings and no successor, belongs to its connection and holds its default cursor name |
| `Handles.Dbc.constructor` | sqliteodbc.c:3500 | a new connection is cleared: not connected, no statements, no transaction |
| `Handles.Env.constructor` | sqliteodbc.c:3410-3427 | a new environment is live and has no connections |
| `Handles.Dbc.LastStmt` | sqliteodbc.c:4413-4418 | the walk ends at the last statement of the list, or NULL for an empty list |
| `Handles.Dbc.AppendStmt` | sqliteodbc.c:4413-4423 | the statement becomes the last one and the list stays a NULL-terminated chain without repetitions |
| `Handles.Dbc.FindStmt` | sqliteodbc.c:4358-4366 | the walk finds the statement exactly when it is on the list, with its predecessor (NULL at the head) |
| `Handles.StmtBypass` | sqliteodbc.c:4367-4373 | pointing the predecessor past a statement leaves a NULL-terminated chain through the other statements in their order |
| `Handles.Dbc.SplicedStmts` | sqliteodbc.c:4367-4373 | after the bypass the list invariant holds for the list without the statement |
| `Handles.Dbc.BypassStmt` | sqliteodbc.c:4367-4373 | the statement at position `i` leaves the list and the others keep their order |
| `Handles.Dbc.UnlinkStmt` | sqliteodbc.c:4355-4374 | the statement is taken out of the list, the others keep their order, and a statement not on the list changes nothing |
| `Handles.Env.LastConn` | sqliteodbc.c:3533-3538 | the walk ends at the last connection, or NULL for an empty list |
| `Handles.Env.AppendConn` | sqliteodbc.c:3532-3543 | the connection becomes the last one and the list stays a NULL-terminated chain without repetitions |
| `Handles.Env.FindConn` | sqliteodbc.c:3595-3603 | the walk finds the connection exactly when it is on the list, with its predecessor |
| `Handles.DbcBypass` | sqliteodbc.c:3604-3610 | pointing the predecessor past a connection leaves a NULL-terminated chain through the others in their order |
| `Handles.Env.SplicedConns` | sqliteodbc.c:3604-3610 | after the bypass the list invariant holds and the removed connection is no longer on it |
| `Handles.Env.BypassConn` | sqliteodbc.c:3604-3610 | the connection at position `i` leaves the list and the others keep their order |
| `Handles.Env.UnlinkConn` | sqliteodbc.c:3592-3611 | the connection is taken out of the list and the others keep their order |
| `Handles.SpliceDistinct` | sqliteodbc.c:3604-3610 | taking one element out of a list without repetitions leaves a list without repetitions that no longer holds it |
| `Handles.WithoutAt` | sqliteodbc.c:4367-4373 | removing the first occurrence of the element at `i` is the splice around `i` |
| `Handles.AllocConnect` | sqliteodbc.c:3486-3549 | a new connection is live, in autocommit, not connected and in no transaction; with a live environment it is appended at the tail of its list, otherwise it belongs to no environment |
| `Handles.AllocStmt` | sqliteodbc.c:4387-4425 | a connection that is not live gives SQL_INVALID_HANDLE and no statement; otherwise a fresh statement with its default name is appended at the tail of the connection's list |
| `Handles.FreeStmt` | sqliteodbc.c:4342-4378 | the statement loses its rows and all bindings; on a live connection it leaves the list and the other statements keep their order |
| `Handles.FreeStmts` | sqliteodbc.c:3588-3590 | freeing from the head until none is left frees every statement of the connection and empties its list |
| `Handles.Release` | sqliteodbc.c:3588-3622 | every statement is freed, the connection leaves a live environment's list, and it is marked dead |
| `Handles.FreeConnect` | sqliteodbc.c:3570-3625 | a handle that is not live gives SQL_INVALID_HANDLE and changes nothing; a connected one is refused with S1000 "not disconnected"; otherwise as `Release` |
| `Handles.Dbc.EndTran` | sqliteodbc.c:2370-2415 | the return code, statements run, `intrans` and error text are those of `Transactions.EndTran` |
| `Handles.Dbc.SetConnectOption` | sqliteodbc.c:3933-3955 | options other than SQL_AUTOCOMMIT are accepted and change nothing; SQL_AUTOCOMMIT gives the mode, return code, statements and `intrans` of `Transactions.SetAutocommit` |
| `Functions.Flag` | sqliteodbc.c:3324-3383 | an identifier is reported as implemented exactly when it is below 100 and marked in the driver's table |
| `Functions.Exists` | sqliteodbc.c:3324-3383 | the identifiers the driver's `exists` table marks |
| `Functions.SetBitOnly` | sqliteodbc.c:3391-3393 | setting or clearing one bit of a word leaves the other fifteen bits as they were |
| `Functions.PositionsDistinct` | sqliteodbc.c:3391-3393 | two bit positions below 16 with the same 4-bit form are the same position |
| `Functions.Bitmap` | sqliteodbc.c:3387-3393 | the ODBC 3 loop over the first `n` identifiers as a function of the caller's words |
| `Functions.BitmapBits` | sqliteodbc.c:3389-3393 | after the loop over the first `n` identifiers the bit of each identifier below `n` tells whether it is implemented, and every later bit is the caller's |
| `Functions.FillBitmap` | sqliteodbc.c:3387-3393 | the caller's words end up as `Bitmap` of their old contents |
| `Functions.CopyTable` | sqliteodbc.c:3385 | the first 100 words are the table and the rest of the caller's array is untouched |
| `Functions.GetFunctionsAsWritten` | sqliteodbc.c:3311-3402 | a NULL connection gives SQL_INVALID_HANDLE and writes nothing; otherwise SQL_SUCCESS with the table, the bitmap over only the first 250 identifiers, or the single flag |
| `Functions.UnwrittenBitsAsWritten` | sqliteodbc.c:3389 | as written the bit of SQLFetchScroll (1021) is whatever the caller left: set for an array of all ones, clear for an array of zeros; with the loop over all 4000 bits it follows the `exists` table, which lists no ODBC 3 identifier |
| `Functions.GetFunctions` | sqliteodbc.c:3311-3402 | as written, except that the bitmap covers all 4000 identifiers |
| `Functions.BitmapAgreesWithFlag` | sqliteodbc.c:3384-3400 | with the full loop the bitmap and the single-function answer agree for every identifier, whatever the caller's array held |
| `ZipDir.ReadShort` | zipfile.c:71-72 | a little-endian 16-bit field is below 2^16 |
| `ZipDir.ReadInt` | zipfile.c:69-70 | a little-endian 32-bit field, read unsigned, is below 2^32 |
| `ZipDir.ReadIntAsWritten` | zipfile.c:69-70 | as written, the shifts in `int` give a number in the signed 32-bit range that is the unsigned reading or that minus 2^32 |
| `ZipDir.ReadShortLe16` | zipfile.c:71-72 | the two bytes of a 16-bit number read back as that number, wherever they sit |
| `ZipDir.ReadIntLe32` | zipfile.c:69-70 | the four bytes of a 32-bit number read back as that number |
| `ZipDir.ReadIntBytes` | zipfile.c:69-70 | conversely, any four bytes are the encoding of the number they read as |
| `ZipDir.LastEndSig` | zipfile.c:190-203 | the last offset at or before `p` holding the end-of-directory signature, or none when no offset does |
| `ZipDir.EndSigBytes` | zipfile.c:192-193 | the signature is there exactly when the four bytes are 0x50 0x4b 0x05 0x06 |
| `ZipDir.SkipAfterFalseStart` | zipfile.c:196 | after a 0x50 that does not start the signature, the three offsets before it cannot start one, so stepping back four bytes misses nothing |
| `ZipDir.FindEndRecord` | zipfile.c:190-203 | the backward search from 22 bytes before the end finds the last signature that leaves room for the record, or none |
| `ZipDir.EntrySize` | zipfile.c:219-222 | a central header spans at least its fixed 46 bytes plus its name, comment and extra field |
| `ZipDir.PathAt` | zipfile.c:219 | the name of an entry is as long as its name-length field says |
| `ZipDir.WalkAsWritten` | zipfile.c:210-223 | as written, an accepted walk has exactly one entry for each header counted |
| `ZipDir.Walk` | zipfile.c:210-223 | an accepted walk has one entry for each header counted, starts at the directory start, each entry a complete header within the file and each next one right after the previous |
| `ZipDir.WalkRefines` | zipfile.c:210-223 | every walk the full check accepts, the check as written accepts with the same entries |
| `ZipDir.PrependAssoc` | zipfile.c:210-223 | adding entries in front of a walk result is associative, so the loop's entries can grow one at a time |
| `ZipDir.WalkStops` | zipfile.c:213-218 | a walk that reaches a missing or incomplete header fails |
| `ZipDir.WalkStep` | zipfile.c:219-222 | a complete header is one entry and the walk goes on right after it |
| `ZipDir.NextHeader` | zipfile.c:213-222 | the header checks pass exactly when the header is complete within the file, and then the next header starts right after it |
| `ZipDir.ReadDirectory` | zipfile.c:208-223 | the loop gives exactly the result of `Walk` from the directory start |
| `ZipDir.Open` | zipfile.c:124-280 | an opened file keeps its bytes, has at least one entry, and every entry is a complete header within the file |
| `ZipDir.OpenAsWritten` | zipfile.c:124-280 | `zip_open` as written: the end record, the directory start read signed, and the walk with only the fixed header size checked |
| `ZipDir.OpenFile` | zipfile.c:124-280 | the loops give exactly the file `Open` describes, or none |
| `ZipDir.LongNameAsWritten` | zipfile.c:213-222 | as written a 72-byte file whose one header claims a 200-byte name is accepted although the name runs past the end; the full check rejects it |
| `ZipDir.NegativeStartAsWritten` | zipfile.c:208 | as written a directory start of 0xFFFFFFFF reads as -1 and the walk reads before the file; read unsigned, the start is past the file and the walk rejects it |
| `ZipDir.DosStamp` | zipfile.c:756-766 | the decoded date has a year from 1980 to 2107, a month below 16, a day below 32, and the time an even second up to 62 |
| `ZipDir.DosWords` | zipfile.c:757-763 | a stamp within the field ranges packs into two 16-bit words |
| `ZipDir.DosStampRoundTrip` | zipfile.c:761-763 | decoding the words of a stamp with an even second gives the stamp back |
| `ZipDir.Unpack` | zipfile.c:761-763 | the three fields packed into a word come back out of it by division and remainder |
| `ZipDir.DivPlus` | zipfile.c:761-763 | dividing `q * d + r` with `r < d` by `d` gives quotient `q` and remainder `r` |
| `ZipDir.DosWordsRoundTrip` | zipfile.c:761-763 | every pair of words decodes to a stamp that packs back into the same pair |
| `ZipDir.Dec2` | zipfile.c:761 | `%02d` of a number below 100 is two characters |
| `ZipDir.Dec4` | zipfile.c:761 | `%04d` of a number below 10000 is four characters |
| `ZipDir.MTimeText` | zipfile.c:761-764 | the "mtime" text is always 19 characters |
| `ZipDir.Unquote` | zipfile.c:319-339 | the first and last characters are dropped exactly when there are at least two, the first is a single or double quote and the last is the same; otherwise the string is returned unchanged |
| `ZipDir.UnquoteQuoted` | zipfile.c:319-339 | quoting a name with either quote and unquoting it gives the name back |
| `ZipCursor.MemCmp` | zipfile.c:670-671 | the comparison is 0 exactly when the two byte strings are equal, and otherwise -1 or 1 |
| `ZipCursor.LeAntisymmetric` | zipfile.c:480-481 | two names each ordered before the other by the BINARY collation are equal |
| `ZipCursor.PastKey` | zipfile.c:675-676 | once a name's first bytes compare above the key, no name after it in sorted order starts with the key |
| `ZipCursor.SortedRun` | zipfile.c:664-667 | in sorted order every name between two equal names is the same name |
| `ZipCursor.Step` | zipfile.c:657-677 | the scan marks an entry exactly when its name matches the constraint: equal to the key for EQ, starting with the prefix for MATCH |
| `ZipCursor.EntryStep` | zipfile.c:658-677 | the tests on one entry, in the order the filter makes them, decide as `Step` does |
| `ZipCursor.Scan` | zipfile.c:657-677 | the flags left for the entries from `k` on are 0 or 1, and a set flag marks a matching entry |
| `ZipCursor.StopIsFinal` | zipfile.c:664-677 | on sorted names, no entry after the one where the scan stops matches |
| `ZipCursor.ScanComplete` | zipfile.c:657-677 | on sorted names every matching entry is flagged, so the early stops lose nothing |
| `ZipCursor.ScanFlags` | zipfile.c:656-678 | the flag pass on the zeroed array leaves exactly the flags of `Scan` |
| `ZipCursor.ScanMoves` | zipfile.c:672-674 | an entry the scan skips or marks adds its flag and the scan moves on to the next entry |
| `ZipCursor.ScanStops` | zipfile.c:665-666 | at an entry where the scan stops, every flag from there on stays 0 |
| `ZipCursor.Rest` | zipfile.c:656 | an array whose tail is still zero is its scanned part followed by zeros |
| `ZipCursor.Selected` | zipfile.c:679-684 | the compacted list holds exactly the indices of the set flags, in increasing order |
| `ZipCursor.SelectedSnoc` | zipfile.c:680-682 | one more flag adds its index to the compacted list exactly when it is set |
| `ZipCursor.NoneSelected` | zipfile.c:684 | flags that are all zero compact to an empty list |
| `ZipCursor.Compact` | zipfile.c:679-684 | the compaction in place puts exactly the `Selected` indices at the front of the array and returns their count |
| `ZipCursor.UpToNul` | zipfile.c:639 | the C string of an argument is its bytes up to the first NUL, which it does not contain |
| `ZipCursor.Classify` | zipfile.c:629-651 | no index number or no argument means no constraint; a MATCH key is the pattern up to its final '*'; an EQ key is the whole, non-empty argument |
| `ZipCursor.FilterOutcome` | zipfile.c:616-689 | only a bad MATCH pattern is an error; a keyed constraint never ends with `nmatches` at 0, and a positive `nmatches` is the length of the match list |
| `ZipCursor.FilterOutcomeAsWritten` | zipfile.c:616-689 | `zip_vtab_filter` as written: a keyed constraint that matches nothing leaves `nmatches` 0, the value that means no constraint |
| `ZipCursor.SelectedIsMatch` | zipfile.c:656-684 | on sorted names an entry is in the compacted match list exactly when its name satisfies the EQ or MATCH constraint |
| `ZipCursor.FilterRows` | zipfile.c:679-710 | the rows a keyed filter returns are the compacted match list, including when that list is empty |
| `ZipCursor.FilterReturnsMatches` | zipfile.c:616-689 | on sorted names, the rows returned for an EQ or MATCH constraint are exactly the matching entries, in table order |
| `ZipCursor.NoMatchReturnsAllAsWritten` | zipfile.c:520-538 | as written an EQ key that no entry has returns every entry, although the constraint is marked as handled; corrected it returns none |
| `ZipCursor.Cursor.constructor` | zipfile.c:555-569 | a new cursor is before the first row, with no constraint and no match list |
| `ZipCursor.Cursor.Next` | zipfile.c:595-604 | the cursor moves one row on unless the filter found nothing to return |
| `ZipCursor.Cursor.MatchList` | zipfile.c:652-684 | the match list of a keyed constraint and its count are those of `FilterOutcome` |
| `ZipCursor.Cursor.Filter` | zipfile.c:616-689 | the return code, `nmatches` and match list are those of `FilterOutcome`; on success the cursor is on its first row, and after an error it has not moved |
| `ZipCursor.Cursor.Eof` | zipfile.c:697-710 | `zip_vtab_eof`: past the last visible row, or always after an error |
| `ZipCursor.Cursor.Rowid` | zipfile.c:866-879 | `zip_vtab_rowid`: the table row of the current match, or the position when there is no match list |
| `ZipCursor.Cursor.Row` | zipfile.c:720-744 | the row `zip_vtab_column` reads, or none out of bounds |
| `ZipCursor.Cursor.CursorAgrees` | zipfile.c:697-744 | end of table, the row read by a column and the rowid all agree with the list of rows the cursor returns |
| `SqlScript.TrimEnd` | impexp.c:129-131 | the text without its trailing white space is a prefix of it, what is cut off is all white space, and it does not itself end in white space |
| `SqlScript.EndsWithSemicolon` | impexp.c:126-133 | the result is true exactly when the last character that is not white space is a semicolon |
| `SqlScript.CloseAt` | impexp.c:144-146 | the first star-slash pair at or after `i`, or none when there is no such pair |
| `SqlScript.NewlineAt` | impexp.c:155-157 | the first line feed at or after `i`, or none |
| `SqlScript.SkipComment` | impexp.c:143-146 | the inner loop stops at the first star-slash pair, or at the end when the comment is not closed |
| `SqlScript.SkipLine` | impexp.c:154-157 | the inner loop stops at the first line feed, or at the end |
| `SqlScript.AllWhitespace` | impexp.c:135-166 | the result is true exactly when the line is white space, closed block comments and line comments, a line comment being allowed to run to the end |
| `SqlScript.BlankAfterSpaces` | impexp.c:139-141 | white space in front does not change whether the rest is blank |
| `SqlScript.SpacesAreBlank` | impexp.c:138-141 | a line of white space only is blank |
| `SqlScript.NonBlankHasNonSpace` | impexp.c:135-166 | a line that is not blank holds a character other than white space |
| `SqlScript.CommentEnds` | impexp.c:142-162 | a block comment that is never closed makes the line not blank, while a line comment running to the end keeps it blank |
| `SqlScript.Doubled` | impexp.c:407-412 | doubling the quote characters lengthens the text by the number of quotes in it |
| `SqlScript.UndoubleDoubled` | impexp.c:407-412 | reading a doubled text back as the body of a quoted literal gives the original text |
| `SqlScript.DoubledAppend` | impexp.c:407-412 | doubling distributes over concatenation |
| `SqlScript.AppendedReadsBack` | impexp.c:403-414 | the quoted part of the result has the computed length, starts and ends with the quote, and reads back as the appended text |
| `SqlScript.CountQuotes` | impexp.c:389-395 | the size loop counts exactly the quote characters of the text |
| `SqlScript.PutDoubled` | impexp.c:407-412 | the copy loop writes the doubled text from `p0` on, ends right after it and leaves what is before `p0` alone |
| `SqlScript.PutQuoted` | impexp.c:403-414 | from `p0` on the buffer holds the quote, the doubled text, the quote and the terminator, and what is before is kept |
| `SqlScript.PutPlain` | impexp.c:415-418 | from `p0` on the buffer holds the text and the terminator, and what is before is kept |
| `SqlScript.AppendPlain` | impexp.c:415-418 | the result is the old contents, the text and the terminator |
| `SqlScript.AppendQuoted` | impexp.c:403-414 | the result is the old contents, the quote, the doubled text, the quote and the terminator |
| `SqlScript.Append` | impexp.c:380-420 | the buffer has the size `append` computes and holds `Appended` followed by the terminator |
| `SqlScript.Failures` | impexp.c:217-220 | the number of failed statements is at most the number run |
| `SqlScript.Feed` | impexp.c:182-224 | the reference for one pass of the loop: the pending statement and the statement run, if any |
| `SqlScript.Process` | impexp.c:168-230 | the reference for the whole loop: `Feed` over the lines in order |
| `SqlScript.FeedLine` | impexp.c:182-224 | one pass of the loop leaves the pending statement of `Feed` and runs the one statement `Feed` runs, if any |
| `SqlScript.FeedRun` | impexp.c:182-224 | a line only appends to the statements already run, whatever they are |
| `SqlScript.ProcessInput` | impexp.c:168-230 | the loop runs exactly the statements of `Process` and returns the number of them that failed |
| `SqlScript.ProcessInvariant` | impexp.c:185-224 | every statement run ends in a semicolon and is complete, and a pending statement always holds something other than white space |
| `SqlScript.ProcessJoins` | impexp.c:185-224 | a statement starting on a non-blank line is the following lines joined by line feeds, and it runs at the first line where the joined text ends in a semicolon and is complete |
| `SqlScript.ProcessPrefix` | impexp.c:177-225 | one more line is one more step of the loop |
| `SqlScript.JoinExtend` | impexp.c:209-212 | joining one more line adds a line feed and the line |
| `SqlScript.FeedFirst` | impexp.c:185-198 | a non-blank line with nothing pending starts a statement, which runs at once when it is finished |
| `SqlScript.FeedPending` | impexp.c:199-224 | a line after a pending statement is added after a line feed, and the result runs when it is finished |
| `SqlScript.Bit` | impexp.c:694 | a bit of the mode is 0 or 1 |
| `SqlScript.Stride` | impexp.c:709 | the table arguments are taken one or two at a time |
| `SqlScript.Jobs` | impexp.c:709-713 | the tables and WHERE clauses taken from the arguments from index `i` on |
| `SqlScript.ExportJobs` | impexp.c:699-728 | with two arguments or fewer every table is dumped; otherwise the tables and WHERE clauses are those of `Jobs` from the third argument on |
| `SqlScript.JobsLayout` | impexp.c:709-713 | without bit 1 every argument names a table with no WHERE clause; with it the arguments are (table, WHERE) pairs, the last one possibly without a WHERE clause, and the number of tables follows |
| `SqlScript.JobsLength` | impexp.c:709 | the number of tables is the number of arguments divided by the stride, rounded up |
| `SqlScript.JobAt` | impexp.c:709-713 | table `k` is argument `i + s * k` and its WHERE clause the argument after it when the stride is 2 |
| `SqlScript.DumpCb` | impexp.c:422-610 | the decision `dump_cb` takes for one table: skip it, or dump its statement and its rows |
| `SqlScript.DumpCbRules` | impexp.c:422-610 | internal tables other than sqlite_sequence and sqlite_stat1 are left out entirely; without the schema flag only rows are written; the rows of a table are dumped exactly when its type is "table"; a user table's statement is copied unless it creates a virtual table |
| `Fixup.Pairs` | fixup.c:41-46 | the pairs tried are `argv[1], argv[2]`, `argv[3], argv[4]`, ... in order, and an accepted argument count is `argv[0]` plus at least one whole pair |
| `Fixup.FirstLine` | fixup.c:30 | `fgets` gives a prefix of the file that holds no line feed before its last character, and is either the whole file or ends in a line feed |
| `Fixup.FileArg` | fixup.c:29-35 | the replacement taken from a file holds no line feed |
| `Fixup.FileArgAsWritten` | fixup.c:29-35 | the replacement as written: the first line with its last character cut off |
| `Fixup.FileArgIsFirstLine` | fixup.c:29-35 | the replacement is the start of the file, followed there by a line feed or by nothing |
| `Fixup.FileArgAgrees` | fixup.c:29-35 | for a file with a line feed the code as written and the corrected reading give the same replacement |
| `Fixup.LastCharLostAsWritten` | fixup.c:31-34 | as written a file holding "ab" with no line feed gives "a"; corrected it gives "ab" |
| `Fixup.Resolved` | fixup.c:20-37 | the substitution keeps the number of arguments |
| `Fixup.ResolvedArgs` | fixup.c:20-36 | only `@file` replacement arguments change, each to its file's first line; search strings, `argv[0]` and plain replacements are kept |
| `Fixup.ResolveFiles` | fixup.c:20-37 | the loop succeeds exactly when every `@file` replacement can be read, and then the arguments are `Resolved` |
| `Fixup.StrStr` | fixup.c:42 | the search finds the first position at or after `i` where the string occurs, or none when it occurs nowhere from `i` on |
| `Fixup.StrStrContains` | fixup.c:42-44 | the search from the start of the line succeeds exactly when the line contains the string |
| `Fixup.Splice` | fixup.c:45-48 | the line with the search string at `p` replaced |
| `Fixup.Fixed` | fixup.c:39-55 | the reference for one line: the first pair whose search string occurs is applied at its first occurrence, and a line without any is kept |
| `Fixup.UnmatchedLineUnchanged` | fixup.c:53-55 | a line that contains none of the search strings is copied unchanged |
| `Fixup.FirstMatchWins` | fixup.c:41-51 | the first pair, in argument order, whose search string occurs in the line is applied, at the first occurrence of that string |
| `Fixup.SpliceReadsBack` | fixup.c:45-48 | the output is the text before the first occurrence, the replacement, then the rest of the line, and putting the search string back gives the line |
| `Fixup.FixLine` | fixup.c:39-55 | the loop over the pairs writes exactly the line `Fixed` describes |
| `Fixup.FixAll` | fixup.c:38-56 | one output line for each input line, each fixed by the pairs |
| `Fixup.FixAllSnoc` | fixup.c:38-56 | one more input line adds its fixed line at the end of the output |
| `Fixup.FilterLines` | fixup.c:38-56 | the loop over standard input writes exactly `FixAll` of the lines |
| `Fixup.Run` | fixup.c:10-58 | the exit status is 0 exactly when the argument count is accepted and every `@file` can be read; on failure nothing is written; on success the output is every input line fixed by the resolved pairs |
| `CStrings.StrToL` | sqliteodbc.c:721 | `strtol` base 10 consumes nothing and gives 0 when there are no digits, and consumes at least one character when it starts at a digit |
| `CStrings.StrToLOfRun` | sqliteodbc.c:721 | a run of digits followed by a non-digit is read whole, as its decimal value |
| `CStrings.CharEnd` | sqliteodbc.c:564-568 | the index returned is the first `c` at or after `i`: no `c` lies before it, and it is the end of the text when there is none |
| `CStrings.CharEndAt` | sqliteodbc.c:4005-4007 | an index holding `c` (or the end) with no `c` before it from `i` is where the scan stops |
| `CStrings.FindChar` | sqliteodbc.c:4013-4015 | the loop stops where `CharEnd` says |

## Left out

- Asynchronous execution (`ASYNC`, threads, `waitfordata`), the Win32 code paths and `MEMORY_DEBUG` are not modelled.
- Calls into SQLite (`sqlite_exec`, `sqlite_get_table`, `sqlite3_complete`, prepare/step) are not modelled. Their outcomes are parameters of the model.
- File and memory-map I/O (`open`, `mmap`, `fgets`, `fopen`) is not modelled. The bytes or lines read are parameters.
- `fgets` splitting lines longer than 511 bytes is not modelled, in either `fixup.c` or `impexp.c`.
- Allocation failure paths (`nomem`, `xmalloc`/`xrealloc`/`sqlite3_malloc` returning NULL) are not modelled. For example, `mapsqltype` returning SQL_VARCHAR without setting `*nosign` when out of memory is left out.
- C integer widths are not modelled: 16-bit struct fields, the clamping of `strtol` to `long`, and `int` overflow in the size computations. Integers are unbounded, except where a wrap-around matters and is written out (`ZipDir.ReadIntAsWritten`).
- DateTime.CompactTimestamp: a compact fraction longer than 15 digits overflows the 16-byte `buf` in `str2timestamp`. The model reads the whole digit run instead.
- Floating-point paths of `getrowdata` (SQL_C_FLOAT, SQL_C_DOUBLE) and its other non-character conversions are not modelled. `Handles.Stmt.FillRow` takes only whether a bound column's C type is one `getrowdata` converts.
- Handles.Stmt.GetData: models SQL_C_CHAR and SQL_C_BINARY targets only, and a buffer length of at least 0. The C passes a negative length on to `strncpy`.
- Handles.Stmt.GetData: for an empty value read from an offset above 0 the bytes `strncpy` copies from past the terminator are not modelled. Only the negative length and the NUL at `val[len - 1]` are stated.
- Handles.Stmt.FillRow: resets the offset of every column, where the C stops at the first column it cannot fill (`Handles.Stmt.FillRowAsWritten` is the C loop). `Fetch` and `FetchScroll` use the corrected loop.
- Handles.Stmt.GetData: does not state the "data right truncated" message text that accompanies SQL_SUCCESS_WITH_INFO.
- Functions.GetFunctions: answers from the driver's `exists` table, as the C does for the other two forms. That table lists no ODBC 3 identifier, so SQLFetchScroll (1021), which the driver defines at sqliteodbc.c:6007, is reported absent.
- Handles.FreeStmt: requires the statement's connection to be set. `drvallocstmt` always sets it.
- Handles.AllocStmt: the new statement's address is a parameter (`handle`), because the model has no addresses. Only the address's use in the default cursor name is modelled.
- ConnAttr.GetDsnAttr: requires an output buffer of at least one character. With `outLen` 0 the C computes a length of -1.
- ConnAttr.FindAttr: the scan for the value is a method of its own. The copy into `out` happens in `ConnAttr.GetDsnAttr`; the C interleaves the two in one loop.
- Handles.Stmt.BindParam: the slot array is built before the binding is stored. The C stores into the array it has just reallocated, which comes to the same contents.
- ZipCursor.ScanFlags: returns where the C `break`s out of the scan loop. The later flags are still zero either way.
- ZipDir.Open: the C walks the directory twice, once to check it and once to record the entries. Both walks make the same checks, so they are merged into one.
- ZipDir.ReadDirectory: counts the remaining headers down instead of counting `i` up.
- ZipCursor.FilterReturnsMatches: assumes the names are sorted, which `zip_vtab_bestindex` ensures before it offers the constraint. The sort itself (the `ORDER BY path` query in `zip_vtab_bestindex`) is not modelled.
- `zip_vtab_column`'s other columns (compressed data, inflating with zlib, CRC) are not modelled. Only the row it reads and the "mtime" text are.
- `table_dump` and the row-dumping SELECT that `dump_cb` builds are not modelled. `dump_cb` is modelled as the decision it takes for each table.
- SqlScript.Append: returns a new buffer holding the old text, instead of reallocating `in` in place. Whether the old buffer survives or moves is not modelled.
- The driver-registration helper script `registerdriver.py` is not part of this model.
- SQL text past the first NUL is not modelled: a C string is a sequence without NUL characters (`CStrings.CString`).

## Findings

| source | as written | input that shows it | evidently intended | confidence | as-written member | corrected member |
|---|---|---|---|---|---|---|
| sqliteodbc.c:502-596 | `fixupsql` allocates `4 * n` bytes and writes the terminating NUL after up to `4 * n` characters | the SQL text `?`: one character becomes `'%q'`, four characters plus the NUL, in a 4-byte buffer | a buffer of `4 * n + 1` bytes | high, not executed | `SqlFixup.TerminatorOverflowsAsWritten` | `SqlFixup.FixupFits` |
| sqliteodbc.c:462-466 | `getmd` tries `(%d)` before `(%d,%d)`; the first already matches `(10,2)`, so the two-number branch is dead | `decimal(10,2)` gets precision 10 | precision 2 | high, not executed | `TypeMap.DecimalPairAsWritten` | `TypeMap.GetMdTwoNumbers` |
| sqliteodbc.c:871 | the compact timestamp fraction is read with `strtol(buf, NULL, 0)`, so a leading zero means octal | fraction digits `05` give 10485760 nanoseconds | 50000000 (base 10) | high, not executed | `DateTime.FractionOctalAsWritten` | `DateTime.DecimalFraction` |
| sqliteodbc.c:920-922 | after a date field `++q` steps over the character after the number even when it is the terminating NUL | `2002-05` reads past the end of the string | step only when `*q` is not NUL, here and in the time branch (sqliteodbc.c:950-952), which steps the same way | high, not executed | `DateTime.OverrunAsWritten` | `DateTime.TsLoop` |
| sqliteodbc.c:5952-5962 | FETCH_NEXT past the end keeps incrementing `rowp`, and FETCH_PRIOR then decrements from there | one-row result: NEXT, NEXT, NEXT, PRIOR fetches row 1, which does not exist | stop at "after the last row", so PRIOR fetches row 0 | high, not executed | `Cursor.PriorPastEndAsWritten` | `Cursor.Scroll` |
| sqliteodbc.c:4922-4924 | with no value pointer `getrowdata` writes into the 16-byte `valdummy` at index `len - 1` | a column bound with length 100 and no buffer: NUL stored at index 99 | write the terminator only into a real buffer | high, not executed | `Cursor.ScratchOverrunAsWritten` | `Cursor.CharChunk` |
| sqliteodbc.c:2393-2410 | a failed COMMIT falls through to ROLLBACK, and a successful ROLLBACK returns SQL_SUCCESS | COMMIT fails, ROLLBACK succeeds: SQL_SUCCESS | SQL_ERROR, because the COMMIT did not happen | medium, not executed | `Transactions.FailedCommitSucceedsAsWritten` | `Transactions.EndTran` |
| sqliteodbc.c:3944-3946 | `autocommit` is set before `endtran`, which then returns at once because autocommit is on | switch autocommit on inside an open transaction: no COMMIT, `intrans` stays set | COMMIT the open transaction first | high, not executed | `Transactions.AutocommitLeavesTransactionOpenAsWritten` | `Transactions.SetAutocommit` |
| sqliteodbc.c:3389 | the ODBC 3 bitmap loop runs over 250 identifiers, the number of words, not the 4000 bits, so the bits of identifiers 250 and up keep the caller's memory | SQLFetchScroll (1021) is reported present for a caller array of all ones and absent for one of zeros | clear or set every bit of the 250 words | high, not executed | `Functions.UnwrittenBitsAsWritten` | `Functions.GetFunctions` |
| zipfile.c:684 | an EQ or MATCH constraint that matches nothing leaves `nmatches` 0, the value meaning "no constraint", while the constraint was marked `omit` | EQ on a name no entry has returns every row | return no rows | high, not executed | `ZipCursor.NoMatchReturnsAllAsWritten` | `ZipCursor.FilterReturnsMatches` |
| zipfile.c:213-222 | only the fixed 46 bytes of each central header are checked against the file end | a 72-byte file whose one header claims a 200-byte name is accepted | check the whole header, name, extra field and comment | high, not executed | `ZipDir.LongNameAsWritten` | `ZipDir.Walk` |
| zipfile.c:69-70 | `zip_read_int` shifts in `int`, so the directory start 0xFFFFFFFF becomes -1 | a directory start of FF FF FF FF makes the walk read before the file | read the field unsigned | medium, not executed | `ZipDir.NegativeStartAsWritten` | `ZipDir.Open` |
| fixup.c:31-34 | the last character of an `@file` line is cut off whether or not it is a line feed | a file holding `ab` with no line feed gives the replacement `a` | cut only a trailing line feed | medium, not executed | `Fixup.LastCharLostAsWritten` | `Fixup.FileArgIsFirstLine` |
| sqliteodbc.c:5895-5904 | the fetch loop returns at the first column it cannot fill, so the offsets of later columns are not reset | a row fetched after `SQLGetData` moved column 2's offset to 1, with column 1 bound to a type `getrowdata` does not convert: reading an empty value in column 2 gives SQL_NULL_DATA and copies from past its terminator (sqliteodbc.c:4903-4931) | reset every column's offset before filling any | high, not executed | `Handles.StaleOffsetSurvivesAsWritten` | `Handles.Stmt.FillRow` |
