/** The values the handler reads and produces: the parsed interaction body,
    the HTTP request as the handler sees it, and the response it sends. */
module Interaction {
  import opened Wrappers

  newtype byte = x: int | 0 <= x < 256

  /** One element of `data.options`. `Nullish` is a `null` array
      element: reading `.name` from it throws a TypeError. A name or
      value that is absent or not a string is None. */
  datatype OptionEntry =
    | Nullish
    | Entry(name: Option<string>, value: Option<string>)

  /** The `data.options` field: absent (undefined or null), an array, or some
      other present value, which has no `find` method, so calling it throws. */
  datatype OptionList =
    | NoOptions
    | Items(entries: seq<OptionEntry>)
    | NotAList

  /** The `data` object of an application command. A `data` that is absent or
      a primitive reads as None; a `name` that is absent or not a string is None. */
  datatype CommandData = CommandData(name: Option<string>, options: OptionList)

  /** A parsed interaction body. `kind` is the JSON `type` field when it is an
      integral number, None otherwise (absent, a string, a fraction, ...). */
  datatype Interaction = Interaction(kind: Option<int>, data: Option<CommandData>)

  /** What the handler reads from the incoming HTTP request: the two signature
      headers and the raw body, already decoded as text. */
  datatype Request = Request(
    signature: Option<string>,
    timestamp: Option<string>,
    body: string)

  /** A JSON reply `{type, data: {content}}`; `content` None means no `data`. */
  datatype Reply = Reply(kind: int, content: Option<string>)

  /** The response: a JSON reply or a plain-text error, each with a status. */
  datatype Outcome =
    | Json(status: int, reply: Reply)
    | Text(status: int, message: string)

  /** JavaScript truthiness of an optional string: present and non-empty. */
  predicate Truthy(s: Option<string>) {
    s.Some? && s.value != ""
  }
}
