/** Rectangular range requests (`RangeRequest` in `src/model.rs`). */
module RangeRequests {
  import opened Common

  const MAX_SAFE_INTEGER: nat := 0x1F_FFFF_FFFF_FFFF
  const U64_MAX: nat := 0xFFFF_FFFF_FFFF_FFFF

  datatype Request = Request(rowStart: nat, rowCount: nat, columnStart: nat, columnCount: nat) {
    function RowEnd(): nat { rowStart + rowCount }
    function ColumnEnd(): nat { columnStart + columnCount }
  }

  /** `validate_public`. */
  function ValidateRequest(r: Request): Result<()> {
    if r.rowStart > MAX_SAFE_INTEGER || r.rowCount > MAX_SAFE_INTEGER || r.columnStart > MAX_SAFE_INTEGER
       || r.columnCount > MAX_SAFE_INTEGER then Err(InvalidArgument)
    else if r.RowEnd() > MAX_SAFE_INTEGER || r.ColumnEnd() > MAX_SAFE_INTEGER then Err(InvalidRange)
    else Ok(())
  }

  /** `cell_count`. */
  function CellCount(r: Request): Result<nat> {
    if r.rowCount * r.columnCount > U64_MAX then Err(InvalidRange) else Ok(r.rowCount * r.columnCount)
  }
}
