/** One spreadsheet row as the converter reads it: eight cells, columns A to H,
    each either empty (`None`) or holding a string. */
module Cells {

  datatype Option<T> = None | Some(value: T)

  datatype Row = Row(
    name: Option<string>,             // A
    importance: Option<string>,       // B
    summary: Option<string>,          // C
    preconditions: Option<string>,    // D
    actions: Option<string>,          // E
    expectedResults: Option<string>,  // F
    customName: Option<string>,       // G
    customValue: Option<string>)      // H

  /** Python truthiness of a cell value: present and not the empty string. */
  predicate Truthy(cell: Option<string>) {
    cell.Some? && cell.value != ""
  }

  /** `cell if cell else default`. */
  function OrElse(cell: Option<string>, default: string): (r: string)
    ensures Truthy(cell) ==> r == cell.value
    ensures !Truthy(cell) ==> r == default
  {
    if Truthy(cell) then cell.value else default
  }
}
