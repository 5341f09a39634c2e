/**
 The exceptions the pyWINDOW readers and writers raise.
 */
module PyWindowErrors {

  datatype IoError =
    | CorruptedXyzFile                 // `_CorruptedXYZFile`
    | CorruptedPdbFile                 // `_CorruptedPDBFile`
    | FileAlreadyExists(path: string)  // `_FileAlreadyExists`
    | NotADictionary                   // `_NotADictionary`
    | FileTypeError(suffix: string)    // `_FileTypeError`
    | IndexError                       // an uncaught `IndexError`
    | KeyError(key: string)            // an uncaught `KeyError`
}
