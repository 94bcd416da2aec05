/** A value the modelled code may find missing: an absent database row, a settings
    write that is skipped, a parse that fails. */
module Optional {

  datatype Option<+T> = None | Some(value: T) {

    /** The value found, or `fallback` standing in for a missing one, as a QVariant
        read with a default does. */
    function GetOr(fallback: T): T
    {
      if Some? then value else fallback
    }
  }
}
