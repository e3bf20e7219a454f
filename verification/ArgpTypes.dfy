/** Options, argument parsers and their trees, as the help and parser code see them. */
module ArgpTypes {
  import opened Options

  /** A character of a C string; the terminator is not one. */
  type Byte = b: int | 0 < b < 256 witness 1
  type Str = seq<Byte>

  /** `arg` and `doc` are kept only as far as their presence matters; a list is what precedes its terminator. */
  datatype Opt = Opt(
    name: Option<Str>,
    key: int,
    hasArg: bool,
    argOptional: bool,
    hidden: bool,
    alias: bool,
    docOnly: bool,
    hasDoc: bool,
    group: int)

  predicate IsPrint(c: int) {
    32 <= c <= 126
  }

  /** `__option_is_short`, in the C locale. */
  predicate IsShort(o: Opt) {
    !o.docOnly && 0 < o.key <= 255 && IsPrint(o.key)
  }

  /** A tree of argument parsers; `options` is None for a null pointer. */
  datatype Argp = Argp(options: Option<seq<Opt>>, hasParser: bool, children: seq<Child>)

  datatype Child = Child(argp: Argp, header: bool, group: int)

  function OptionsOf(a: Argp): seq<Opt> {
    if a.options.Some? then a.options.value else []
  }
}
