/**
 * What an awaited `HttpClient` call hands back to the services. The network itself is not modelled:
 * every method that awaits a request takes its outcome as a parameter.
 */
module Http {
  import opened Wrappers

  /**
   * `Delivered(Some(b))`: the promise resolved with body `b`; `Delivered(None)`: it resolved with
   * `null` or `undefined`; `Threw`: the promise rejected (network failure, non-2xx status).
   */
  datatype Response<+T> = Delivered(body: Option<T>) | Threw
}
