/** The ODBC constants the driver's handle logic uses, with the values of the ODBC
    headers (sql.h, sqlext.h) and the driver's own magic numbers (sqliteodbc.c:39-41). */
module OdbcCodes {

  // Return codes
  const SQL_SUCCESS := 0
  const SQL_SUCCESS_WITH_INFO := 1
  const SQL_ERROR := -1
  const SQL_INVALID_HANDLE := -2
  const SQL_NO_DATA := 100

  // Lengths and indicators
  const SQL_NTS := -3
  const SQL_NULL_DATA := -1
  const SQL_NO_TOTAL := -4

  // Fetch orientations
  const SQL_FETCH_NEXT := 1
  const SQL_FETCH_FIRST := 2
  const SQL_FETCH_LAST := 3
  const SQL_FETCH_PRIOR := 4
  const SQL_FETCH_ABSOLUTE := 5
  const SQL_FETCH_RELATIVE := 6

  // Transactions and connection options
  const SQL_COMMIT := 0
  const SQL_ROLLBACK := 1
  const SQL_AUTOCOMMIT := 102
  const SQL_AUTOCOMMIT_ON := 1

  // C data types
  const SQL_C_CHAR := 1
  const SQL_C_BINARY := -2
  const SQL_C_LONG := 4
  const SQL_C_SHORT := 5
  const SQL_C_FLOAT := 7
  const SQL_C_DOUBLE := 8
  const SQL_C_DATE := 9
  const SQL_C_TIME := 10
  const SQL_C_TIMESTAMP := 11
  const SQL_C_TINYINT := -6
  const SQL_C_SLONG := -16
  const SQL_C_SSHORT := -15
  const SQL_C_STINYINT := -26
  const SQL_C_ULONG := -18
  const SQL_C_USHORT := -17
  const SQL_C_UTINYINT := -28
  const SQL_C_DEFAULT := 99

  // Handle magic numbers
  const ENV_MAGIC := 0x53544145
  const DBC_MAGIC := 0x53544144
  const DEAD_MAGIC := 0xdeadbeef

  /** The C types `getrowdata` converts to (its other types end in SQL_ERROR);
      SQL_C_DEFAULT is always replaced by one of them first. */
  predicate ConvertibleCType(t: int) {
    t == SQL_C_UTINYINT || t == SQL_C_TINYINT || t == SQL_C_STINYINT ||
    t == SQL_C_USHORT || t == SQL_C_SHORT || t == SQL_C_SSHORT ||
    t == SQL_C_ULONG || t == SQL_C_LONG || t == SQL_C_SLONG ||
    t == SQL_C_FLOAT || t == SQL_C_DOUBLE || t == SQL_C_BINARY || t == SQL_C_CHAR ||
    t == SQL_C_DATE || t == SQL_C_TIME || t == SQL_C_TIMESTAMP || t == SQL_C_DEFAULT
  }
}
