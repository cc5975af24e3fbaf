/** Text input as the check sees it once a line has been split at whitespace. */
module Lines {
  /** One line of a file or of a command's output, split into tokens. */
  type Line = seq<string>
}
