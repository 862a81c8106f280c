/** Optional values and the truthiness rules of Python's `or`, which the bot
    uses to pick defaults (`duration or 0`, `file_size or size`, `hdplay or play`). */
module Wrappers {

  datatype Option<+T> = None | Some(value: T)

  /** `x or d` for an optional integer: None and 0 are both falsy. */
  function IntOr(x: Option<int>, d: int): (r: int)
    ensures x.Some? && x.value != 0 ==> r == x.value
    ensures (x.None? || x.value == 0) ==> r == d
  {
    if x.Some? && x.value != 0 then x.value else d
  }

  /** `x or d` for an optional integer whose default may itself be missing. */
  function IntOrElse(x: Option<int>, d: Option<int>): (r: Option<int>)
    ensures x.Some? && x.value != 0 ==> r == x
    ensures (x.None? || x.value == 0) ==> r == d
  {
    if x.Some? && x.value != 0 then x else d
  }

  /** `x or d` for an optional string: None and "" are both falsy. */
  function StrOr(x: Option<string>, d: Option<string>): (r: Option<string>)
    ensures x.Some? && x.value != "" ==> r == x
    ensures (x.None? || x.value == "") ==> r == d
  {
    if x.Some? && x.value != "" then x else d
  }

  /** A present, non-empty string (Python truthiness of `d.get("url")`). */
  predicate Truthy(x: Option<string>)
  {
    x.Some? && x.value != ""
  }
}
