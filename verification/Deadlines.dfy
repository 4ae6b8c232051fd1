/** The kinds of deadline the timing wheel arms for a connection. */
module Deadlines {
  datatype DeadlineKind =
    | NoKind | Drain | KaIdle | InitialIdle | HeaderTimeout | BodyTimeout | WriteTimeout
}
