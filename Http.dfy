/**
 * What a streaming language-model call sees of its HTTP exchange: either
 * the request failed before a response arrived (connection error), the
 * response had a non-success status (and reading its error body for the
 * log either succeeded or threw), or the body arrived as a sequence of
 * lines (a read error part-way behaves as the end of the body: the same
 * callbacks run).
 */
module Http {
  datatype StreamReply<L> =
    | ConnectFailed
    | NotSuccessful(errorBodyRead: bool)
    | Successful(lines: seq<L>)

}
