/** C#'s nullable references: `None` is `null`. */
module Optional {

  datatype Option<+T> = None | Some(value: T)
  {
    /** `x ?? fallback`. */
    function GetOr(fallback: T): (r: T)
      ensures Some? ==> r == value
      ensures None? ==> r == fallback
    {
      match this
      case Some(v) => v
      case None => fallback
    }
  }
}
