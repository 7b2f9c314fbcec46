/** What the pipeline sees of the HTTP transport: a fetch either yields a decoded payload or
    raises `requests.exceptions.RequestException` (a connection error, a timeout, a non-2xx
    status from `raise_for_status`, a body that is not JSON). */
module Http {
  import opened Wrappers

  datatype RequestException = RequestException(message: string)

  type Response<T> = Result<T, RequestException>
}
