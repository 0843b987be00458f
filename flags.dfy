/**
 * parseFlags: the flag values become a Config, unless Markdown and JSON output
 * are both requested, in which case the program stops with a fatal message
 * (modelled here as an error result).
 */
module Flags {
  import opened GoStrings
  import opened Wrappers

  /** The values of -org, -markdown and -json after flag parsing. */
  datatype Flags = Flags(org: GoString, markdown: bool, json: bool)

  datatype Config = Config(org: GoString, asMarkdown: bool, asJSON: bool)

  datatype ConfigError = ConfigError(message: GoString)

  const BothModesMessage: GoString := "Cannot use both markdown and JSON output"

  /** The two output modes are mutually exclusive. */
  predicate ValidConfig(c: Config) {
    !(c.asMarkdown && c.asJSON)
  }

  /** The flags a configuration records. */
  function FlagsOf(c: Config): Flags {
    Flags(c.org, c.asMarkdown, c.asJSON)
  }

  function ParseFlags(f: Flags): (r: Result<Config, ConfigError>)
    ensures r.Failure? <==> f.markdown && f.json
    ensures r.Failure? ==> r.error == ConfigError(BothModesMessage)
    ensures r.Success? ==> ValidConfig(r.value) && FlagsOf(r.value) == f
  {
    if f.markdown && f.json then Failure(ConfigError(BothModesMessage))
    else Success(Config(f.org, f.markdown, f.json))
  }

  /** ParseFlags yields exactly the valid configurations, each from its own flags. */
  lemma ParseFlagsExact(f: Flags, c: Config)
    ensures ParseFlags(f) == Success(c) <==> ValidConfig(c) && FlagsOf(c) == f
  {
  }
}
