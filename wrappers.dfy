/** An optional value: a JavaScript `null`/`undefined` or an absent PHP
    array key is `None`. */
module Wrappers {

  datatype Option<+T> = None | Some(value: T)
  {
    function GetOr(default: T): T
    {
      match this
      case Some(v) => v
      case None => default
    }
  }
}
