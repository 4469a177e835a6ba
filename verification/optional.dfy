/** A minimal optional-value type: the model's stand-in for Java's nullable
    references and for settings that may be absent from the settings store. */
module Optional {

  datatype Option<+T> = None | Some(value: T) {

    /** The value if present, otherwise the given default (the shape of
        `Settings.System.getInt(resolver, key, default)`). */
    function GetOr(default: T): T {
      match this
      case Some(v) => v
      case None => default
    }
  }
}
