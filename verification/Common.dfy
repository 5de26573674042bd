/** Result types shared by every component. */
module Common {
  datatype Option<+T> = None | Some(value: T)

  /** The answer of a call that can fail. */
  datatype Reply<+T, +E> = Ok(value: T) | Failed(error: E)

  predicate IsSpace(c: char) {
    c == ' ' || '\t' <= c <= '\r' || c == '\U{0085}' || c == '\U{00A0}'
  }

  function TrimSpace(s: string): string {
    if s == "" then ""
    else if IsSpace(s[0]) then TrimSpace(s[1..])
    else if IsSpace(s[|s| - 1]) then TrimSpace(s[..|s| - 1])
    else s
  }
}
