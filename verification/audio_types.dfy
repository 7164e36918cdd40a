/** Values shared by the slice parser and the loader of
    paderbox/io/audioread.py: the channel selection and the exceptions
    `load_audio` raises. */
module AudioTypes {
  import opened Common

  /** What the `channel` argument can be: `None` (all channels), an int,
      a `slice(lo, hi, step)` with any part left open, or a list/tuple of
      ints. */
  datatype Channel =
    | AllChannels
    | Index(i: int)
    | Slice(lo: Option<int>, hi: Option<int>, step: Option<int>)
    | Indices(ix: seq<int>)

  /** How a call into the audio libraries failed. Errors of libsndfile are
      `RuntimeError`s; `isRuntimeError` says whether this one is. */
  datatype DecoderFailure = DecoderFailure(isRuntimeError: bool, message: string)

  /** The exceptions the loader raises. */
  datatype LoadError =
    | AssertionError(reason: string)
    | ValueError(reason: string)
    | NotImplementedError(reason: string)
    | KeyError(key: string)
    | IndexError(index: int)
    /** a failure of the audio libraries, re-raised unchanged */
    | DecoderError(failure: DecoderFailure)
    /** the `RuntimeError` raised instead of a decoder failure on a '.wav' path */
    | CouldNotRead(path: string)
    /** the `RuntimeError` raised instead of a decoder failure on any other path */
    | WrongSuffix(suffix: string, path: string)
    /** the `OSError` python-magic raises when it cannot open the file it is
        asked to describe */
    | OSError(path: string)
}
