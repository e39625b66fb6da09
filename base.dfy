/** Shared value types: optional values, results, the errors the package raises,
    and the outcome of a call into an I/O primitive that may throw. */
module Base {

  datatype Option<T> = None | Some(value: T)

  /** Everything `src/asar.ts` throws, one constructor per `throw` site, plus the
      exceptions that escape from the collaborators it calls. */
  datatype Error =
    | UnknownFileType(filename: string)                          // no metadata and no type could be determined
    | UnpackPatternError(pattern: string, filename: string)      // minimatch failed on the `unpack` option
    | DirPatternError(pattern: string, dirPath: string)          // minimatch failed on the `unpackDir` option
    | LookupFailed(filename: string)                             // the archive's getFile threw
    | IoFailure(message: string)                                 // a file-system primitive threw
    | WritesOutOfPackage(fullPath: string, destFilename: string) // an entry's destination escapes dest
    | LinksOutOfPackage(fullPath: string, link: string, linkSrcPath: string) // a link's source escapes dest
    | ExtractionFailed(messages: seq<string>)                    // aggregated per-file extraction failures
    | NotAFile(filename: string)                                 // extractFile met a directory or a link

  datatype Result<T> = Ok(value: T) | Err(error: Error)

  /** What a call into a foreign primitive did: returned a value or threw. */
  datatype Attempt<T> = Succeeded(value: T) | Threw(message: string)

  /** The sequence holds no element twice. */
  predicate NoDup<T(==)>(s: seq<T>) {
    forall i, j :: 0 <= i < j < |s| ==> s[i] != s[j]
  }

  /** The set of elements of a sequence. */
  function Elems<T>(s: seq<T>): set<T> {
    set x | x in s
  }

  /** `p` is a prefix of `s`, element by element. */
  predicate IsPrefix<T(==)>(p: seq<T>, s: seq<T>) {
    |p| <= |s| && s[..|p|] == p
  }
}
