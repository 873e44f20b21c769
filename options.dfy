/**
 * The option dictionary handed to the downloader library, which the program
 * builds fresh for every strategy and then edits in place.
 */
module Options {
  import opened Formats

  /** A mutable `Dict[str, Any]`. */
  class OptionsDict {
    var entries: map<string, Value>

    /** `dict(initial)`: a copy. */
    constructor (initial: map<string, Value>)
      ensures entries == initial
    {
      entries := initial;
    }

    /** `opts[key] = value`. */
    method Set(key: string, value: Value)
      modifies this
      ensures entries == old(entries)[key := value]
    {
      entries := entries[key := value];
    }

    /** `opts.pop(key, None)`. */
    method Pop(key: string)
      modifies this
      ensures entries == old(entries) - {key}
    {
      entries := entries - {key};
    }
  }
}
