/** The native error codes used by the modelled components. */
module RdbErrno {
  const E_OK: int := 0
  const E_BASE: int := 13 * 0x20_0000 + 2 * 0x1_0000
  const E_ERROR := E_BASE
  const E_ROW_OUT_RANGE := E_BASE + 0xd
  const E_STEP_RESULT_QUERY_EXCEEDED := E_BASE + 0x1b
  const E_ALREADY_CLOSED := E_BASE + 0x1e
  const E_GET_DATAOBSMGRCLIENT_FAIL := E_BASE + 0x32
  const E_INVALID_ARGS_NEW := E_BASE + 0x58
}
