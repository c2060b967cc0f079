/** `owonprotocol.Command`, which every other part sends or compiles to. */
module Commands {
  datatype ResponseMode = Unspecified | NoResponse | Ascii | LengthPrefixed | Unsupported(code: int)

  /** The text is a sequence of bytes, one character each. */
  datatype Command = Command(text: string, mode: ResponseMode)
}
