/** The transaction rules of a connection in sqliteodbc.c: `endtran`, which ends an open
    transaction with COMMIT or ROLLBACK (falling back to ROLLBACK when the first statement
    fails), and the SQL_AUTOCOMMIT case of `drvsetconnectoption`, which commits the open
    transaction when autocommit is switched on. `sqlite_exec` is outside the model: the
    outcome of each statement it runs is an input. */
module Transactions {
  import opened CStrings
  import opened OdbcCodes

  /** The outcome of one `sqlite_exec` call, with the error text it may return. */
  datatype Exec = ExecOk | ExecFailed(errmsg: Option<string>)

  /** The result of a completion: return code, the new `intrans`, the statements run in
      order, and the (sqlstate, logmsg) pair recorded, if any. */
  datatype TranOut = TranOut(rc: int, intrans: bool, issued: seq<string>, err: Option<(string, string)>)

  const Commit := "COMMIT TRANSACTION"
  const Rollback := "ROLLBACK TRANSACTION"

  /** `logmsg` after a failed statement: the error text cut to 1023 characters, or
      "transaction failed" when there is none. */
  function FailureText(msg: Option<string>): (t: string)
    ensures |t| <= 1023
    ensures msg.Some? ==> IsPrefix(t, msg.value)
  {
    match msg
    case Some(m) => m[..Min(|m|, 1023)]
    case None => "transaction failed"
  }

  /** `endtran` as written (sqliteodbc.c:2370-2415); `first` and `second` are the outcomes
      of the statement asked for and of the ROLLBACK run when it fails. */
  function EndTranAsWritten(connected: bool, autocommit: bool, intrans: bool, comptype: int,
                            first: Exec, second: Exec): (r: TranOut)
    ensures r.issued != [] <==> connected && !autocommit && intrans && comptype in {SQL_COMMIT, SQL_ROLLBACK}
    ensures r.issued != [] ==> !r.intrans
    ensures r.issued == [] ==> r.intrans == intrans
  {
    if !connected then TranOut(SQL_ERROR, intrans, [], Some(("S1000", "not connected")))
    else if autocommit || !intrans then TranOut(SQL_SUCCESS, intrans, [], None)
    else if comptype != SQL_COMMIT && comptype != SQL_ROLLBACK then
      TranOut(SQL_ERROR, intrans, [], Some(("S1000", "invalid completion type")))
    else
      var sql := if comptype == SQL_COMMIT then Commit else Rollback;
      match first
      case ExecOk => TranOut(SQL_SUCCESS, false, [sql], None)
      case ExecFailed(msg) =>
        TranOut(if second.ExecOk? then SQL_SUCCESS else SQL_ERROR, false, [sql, Rollback],
                Some(("S1000", FailureText(msg))))
  }

  /** A COMMIT that fails and is rolled back is reported as SQL_SUCCESS. */
  lemma FailedCommitSucceedsAsWritten()
    ensures EndTranAsWritten(true, false, true, SQL_COMMIT, ExecFailed(None), ExecOk)
            == TranOut(SQL_SUCCESS, false, [Commit, Rollback], Some(("S1000", "transaction failed")))
    ensures EndTran(true, false, true, SQL_COMMIT, ExecFailed(None), ExecOk).rc == SQL_ERROR
  {
  }

  /** `endtran` reporting a failed COMMIT as SQL_ERROR even when the ROLLBACK after it
      succeeds: SQL_SUCCESS for a COMMIT of an open transaction means the COMMIT ran. */
  function EndTran(connected: bool, autocommit: bool, intrans: bool, comptype: int,
                   first: Exec, second: Exec): (r: TranOut)
    ensures r.intrans == EndTranAsWritten(connected, autocommit, intrans, comptype, first, second).intrans
    ensures r.issued == EndTranAsWritten(connected, autocommit, intrans, comptype, first, second).issued
    ensures r.rc == SQL_SUCCESS && r.issued != [] && comptype == SQL_COMMIT ==>
              first.ExecOk? && r.issued == [Commit]
    ensures r.rc == SQL_SUCCESS ==> r.issued == [] || r.issued[|r.issued| - 1] == Rollback || first.ExecOk?
  {
    var w := EndTranAsWritten(connected, autocommit, intrans, comptype, first, second);
    if w.issued != [] && comptype == SQL_COMMIT && first.ExecFailed? then w.(rc := SQL_ERROR) else w
  }

  /** The new `autocommit`, and the completion run, when SQL_AUTOCOMMIT is set to `param`
      as written (sqliteodbc.c:3943-3952): `autocommit` is set before `endtran` is
      called, so `endtran` returns at once and nothing is committed. */
  function SetAutocommitAsWritten(connected: bool, intrans: bool, param: int, first: Exec, second: Exec)
    : (r: (bool, TranOut))
    ensures r.0 == (param == SQL_AUTOCOMMIT_ON)
    ensures r.1.issued == [] && r.1.intrans == intrans
  {
    var ac := param == SQL_AUTOCOMMIT_ON;
    if ac && intrans then (ac, EndTranAsWritten(connected, ac, intrans, SQL_COMMIT, first, second))
    else (ac, TranOut(SQL_SUCCESS, intrans, [], None))
  }

  /** Switching autocommit on in an open transaction returns SQL_SUCCESS and leaves the
      transaction open without a COMMIT. */
  lemma AutocommitLeavesTransactionOpenAsWritten()
    ensures SetAutocommitAsWritten(true, true, SQL_AUTOCOMMIT_ON, ExecOk, ExecOk)
            == (true, TranOut(SQL_SUCCESS, true, [], None))
    ensures SetAutocommit(true, true, SQL_AUTOCOMMIT_ON, ExecOk, ExecOk)
            == (true, TranOut(SQL_SUCCESS, false, [Commit], None))
  {
  }

  /** SQL_AUTOCOMMIT with the open transaction committed before autocommit takes effect:
      on a connected handle, switching autocommit on always ends the transaction, and
      switching it off runs nothing. */
  function SetAutocommit(connected: bool, intrans: bool, param: int, first: Exec, second: Exec)
    : (r: (bool, TranOut))
    ensures r.0 == (param == SQL_AUTOCOMMIT_ON)
    ensures connected && r.0 ==> !r.1.intrans
    ensures !r.0 ==> r.1 == TranOut(SQL_SUCCESS, intrans, [], None)
    ensures r.0 && intrans && connected ==> r.1.issued != [] && r.1.issued[0] == Commit
  {
    var ac := param == SQL_AUTOCOMMIT_ON;
    if ac && intrans then (ac, EndTran(connected, false, intrans, SQL_COMMIT, first, second))
    else (ac, TranOut(SQL_SUCCESS, intrans, [], None))
  }
}
