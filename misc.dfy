/** src/misc.rs: reading an optional flag value. */
module Misc {
  import opened Common

  /** A flag counts as enabled only when it is present and set to true. */
  function FlagIsEnabled(v: Option<bool>): (r: bool)
    ensures r <==> v == Some(true)
  {
    match v
    case Some(flag) => flag
    case None => false
  }
}
