/** Small value types shared by the whole model. */
module Common {

  datatype Option<+T> = None | Some(value: T)

  /** The elements of a sequence, as a set. */
  ghost function Elems<T>(s: seq<T>): set<T> {
    set x | x in s
  }

  /** A JavaScript value of type `string | undefined`, as held by optional
      object fields (`layer.options.country`) and by partially filled
      buffer entries. */
  datatype Text = Undefined | Str(s: string) {

    /** The value with an empty-string fallback: the string itself, or ""
        when undefined. */
    function OrEmpty(): (r: string)
      ensures Str? ==> r == s
      ensures Undefined? ==> r == ""
    {
      if Str? then s else ""
    }

    /** JavaScript truthiness of the value: defined and non-empty. */
    predicate Truthy() {
      Str? && s != ""
    }
  }
}
