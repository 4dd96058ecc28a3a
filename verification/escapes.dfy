/** The ANSI/VT100 escape sequences coloredlogcat.py decorates its columns
    with. Only their distinctness and the shape of the tag escape matter
    to the model; the byte contents are the script's own. */
module Escapes {
  import opened Text

  const LogLevelVerbose: string := "\U{1B}[38;5;225;48;5;8m"
  const LogLevelInfo: string := "\U{1B}[0;30;48;5;119m"
  const LogLevelDebug: string := "\U{1B}[0;30;48;5;45m"
  const LogLevelWarning: string := "\U{1B}[0;30;48;5;229m"
  const LogLevelError: string := "\U{1B}[38;5;225;48;5;196m"
  const LogProcess: string := "\U{1B}[0;38;5;244;48;5;236m"
  const LogTimestamp: string := "\U{1B}[0;38;5;235m"
  const Reset: string := "\U{1B}[0m"

  /** The prefix of `LOG_TAG` before its `%d`. */
  const TagEscapeLead: string := "\U{1B}[0;38;5;"

  /** `LOG_TAG % code`: a 256-colour foreground escape. */
  function TagEscape(code: nat): (e: string)
    ensures |e| > |TagEscapeLead| + 1
    ensures e[..|TagEscapeLead|] == TagEscapeLead && e[|e| - 1] == 'm'
    ensures e[|TagEscapeLead|..|e| - 1] == NatToDecimal(code)
  {
    TagEscapeLead + NatToDecimal(code) + "m"
  }

  /** Different colour codes give different escapes. */
  lemma TagEscapeInjective(a: nat, b: nat)
    requires TagEscape(a) == TagEscape(b)
    ensures a == b
  {
    NatToDecimalInjective(a, b);
  }
}
