/** A value that may be missing: an optional field of a draft record, or a
    key that is absent from the browser's key/value storage. */
module Optional {

  datatype Option<T> = None | Some(value: T)
}

/** The notifications the pages raise. Only which kind of toast is raised and
    its text are modelled; how it is displayed is not. */
module Toasts {

  datatype Toast =
    | NoToast
    | Success(message: string)
    | Error(message: string)
}
