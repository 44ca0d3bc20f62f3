/** The ways a parse can fail.  The first two mirror the exception classes
    of the package; the others stand for the bare `KeyError`s raised by the
    node constructors and by dictionary look-ups in the parser. */
module FilterErrors {

  /** Where the reserved root key was misused. */
  datatype RootKeySite = AsEntryName | AsMemberOf

  datatype FilterError =
      /** `RootKeyUsedError`: `@root` named an entry or a `memberOf` target. */
    | RootKeyUsed(site: RootKeySite)
      /** `NoGroupOrCondition`: the entry called `name` has neither body. */
    | NoGroupOrCondition(name: string)
      /** The conjunction, uppercased, is neither AND nor OR. */
    | InvalidConjunction(conjunction: string)
      /** A condition payload without `path`. */
    | MissingPath
      /** A condition payload without `value`. */
    | MissingValue
      /** The bucket called `group` collected conditions but was never
          declared as a (kept) group, so it has no conjunction. */
    | MissingConjunction(group: string)
      /** A group's `memberOf` names a bucket that does not exist. */
    | UnknownParent(parent: string)
}
