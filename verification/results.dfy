/** Optional values and the outcome of a fetch, as the app receives them. */
module Results {

  /** Kotlin's nullable `T?`. */
  datatype Option<+T> = None | Some(value: T)

  /** Kotlin's `Result<T>` as the repository and the download service hand it
      back: the decoded value, or a failure carrying `Throwable.message`, which
      Kotlin allows to be null. */
  datatype Fetch<+T> = Success(value: T) | Failure(message: Option<string>)
}
