/**
 * run and main: validate the flags, create a REST client, fetch the open pull
 * requests, and hand the items to exactly one renderer. The REST client, the
 * terminal renderer and the JSON encoder are collaborators whose code is not
 * part of this model; they are passed in as function values.
 */
module Pipeline {
  import opened GoStrings
  import opened Wrappers
  import opened Flags
  import opened Search
  import opened MarkdownList

  /** An error value returned by a collaborator. */
  datatype Error = Error(message: GoString)

  /** A REST client; get sends one search request and decodes the items. */
  datatype Client = Client(get: GoString -> Result<seq<Item>, Error>)

  /** What run calls but does not define. */
  datatype Env = Env(
    newClient: Result<Client, Error>,
    renderTerminal: seq<Item> -> Result<GoString, Error>,
    marshalIndent: seq<Item> -> Result<GoString, Error>)

  datatype RunError = ConfigFailure(config: ConfigError) | CollaboratorFailure(cause: Error)

  /** The point at which a run ends: the fatal exit in parseFlags or one of run's returns. */
  datatype Branch =
    | ConfigRejected
    | ClientFailed
    | FetchFailed
    | NoItems
    | MarkdownOut
    | JsonOut
    | TerminalOut

  /** What run returns, the branch that returned it, and what it wrote to stderr. */
  datatype RunResult = RunResult(branch: Branch, value: Result<GoString, RunError>, stderr: GoString)

  const NoPRsNotice: GoString := "No PRs found.\n"

  function FromCollaborator(r: Result<GoString, Error>): Result<GoString, RunError> {
    match r
    case Success(s) => Success(s)
    case Failure(e) => Failure(CollaboratorFailure(e))
  }

  /**
   * run, together with the parseFlags call at its start. Only the rejected
   * flags and a failed client end in an error before a renderer runs, only
   * the empty result writes to stderr, and the Markdown and JSON branches are
   * each taken only when the other mode is off.
   */
  function Run(flags: Flags, env: Env): (r: RunResult)
    ensures r.branch == ConfigRejected <==> flags.markdown && flags.json
    ensures r.branch == ClientFailed <==> !(flags.markdown && flags.json) && env.newClient.Failure?
    ensures r.branch in {ConfigRejected, ClientFailed} ==> r.value.Failure?
    ensures r.branch in {FetchFailed, NoItems, MarkdownOut} ==> r.value.Success?
    ensures r.branch in {FetchFailed, NoItems} ==> r.value == Success([])
    ensures r.stderr != [] <==> r.branch == NoItems
    ensures r.branch == MarkdownOut ==> flags.markdown && !flags.json
    ensures r.branch == JsonOut ==> flags.json && !flags.markdown
    ensures r.branch == TerminalOut ==> !flags.markdown && !flags.json
  {
    match ParseFlags(flags)
    case Failure(e) => RunResult(ConfigRejected, Failure(ConfigFailure(e)), [])
    case Success(cfg) =>
      match env.newClient
      case Failure(e) => RunResult(ClientFailed, Failure(CollaboratorFailure(e)), [])
      case Success(client) =>
        match client.get(SearchQuery(cfg.org))
        case Failure(_) => RunResult(FetchFailed, Success([]), [])
        case Success(items) =>
          if |items| == 0 then RunResult(NoItems, Success([]), NoPRsNotice)
          else if cfg.asMarkdown then RunResult(MarkdownOut, Success(Markdown(items)), [])
          else if cfg.asJSON then RunResult(JsonOut, FromCollaborator(env.marshalIndent(items)), [])
          else RunResult(TerminalOut, FromCollaborator(env.renderTerminal(items)), [])
  }

  /** What the process prints and its exit status. */
  datatype Process = Process(stdout: GoString, stderr: GoString, status: int)

  function ErrorText(e: RunError): GoString {
    match e
    case ConfigFailure(c) => c.message
    case CollaboratorFailure(c) => c.message
  }

  /** What log.Fatal writes for a message: the message, and a newline unless it already ends in one. */
  function LogLine(m: GoString): (l: GoString)
    ensures |l| > 0 && l[|l| - 1] == '\n'
    ensures |l| >= |m| && l[..|m|] == m
    ensures |l| == |m| + 1 <==> (m == [] || m[|m| - 1] != '\n')
    ensures |l| == |m| <==> (m != [] && m[|m| - 1] == '\n')
  {
    if |m| > 0 && m[|m| - 1] == '\n' then m else m + "\n"
  }

  /** main: print run's output, or report its error and exit with status 1. */
  function Program(flags: Flags, env: Env): (p: Process)
    ensures p.status == 0 <==> Run(flags, env).value.Success?
    ensures p.status == 0 ==> p.stdout == Run(flags, env).value.value && p.stderr == Run(flags, env).stderr
    ensures p.status == 1 <==> Run(flags, env).value.Failure?
    ensures p.status == 1 ==>
      p.stdout == [] && p.stderr == Run(flags, env).stderr + LogLine(ErrorText(Run(flags, env).value.error))
  {
    var r := Run(flags, env);
    match r.value
    case Success(out) => Process(out, r.stderr, 0)
    case Failure(e) => Process([], r.stderr + LogLine(ErrorText(e)), 1)
  }

  /** The items the search returns for these flags, when the client and the request succeed. */
  predicate Fetched(flags: Flags, env: Env, items: seq<Item>) {
    && env.newClient.Success?
    && env.newClient.value.get(SearchQuery(flags.org)) == Success(items)
  }

  /**
   * Requesting both Markdown and JSON stops the program before any
   * collaborator is consulted: the outcome is the same whatever they do.
   */
  lemma ConflictingModesRejected(flags: Flags, env: Env, other: Env)
    requires flags.markdown && flags.json
    ensures Run(flags, env).branch == ConfigRejected
    ensures Run(flags, env) == Run(flags, other)
    ensures Program(flags, env) == Process([], LogLine(BothModesMessage), 1)
    ensures Program(flags, env).stderr == BothModesMessage + "\n"
  {
  }

  /** A failure to create the client is passed on and ends the program with status 1. */
  lemma ClientErrorPassedOn(flags: Flags, env: Env)
    requires !(flags.markdown && flags.json) && env.newClient.Failure?
    ensures Run(flags, env).branch == ClientFailed
    ensures Run(flags, env).value == Failure(CollaboratorFailure(env.newClient.error))
    ensures Program(flags, env) == Process([], LogLine(env.newClient.error.message), 1)
  {
  }

  /** A failed search request is swallowed: nothing is printed and the status is 0. */
  lemma FetchErrorSwallowed(flags: Flags, env: Env)
    requires !(flags.markdown && flags.json) && env.newClient.Success?
    requires env.newClient.value.get(SearchQuery(flags.org)).Failure?
    ensures Run(flags, env) == RunResult(FetchFailed, Success([]), [])
    ensures Program(flags, env) == Process([], [], 0)
  {
  }

  /** No items: empty output, the notice on stderr, status 0. */
  lemma NoItemsNotice(flags: Flags, env: Env)
    requires !(flags.markdown && flags.json) && Fetched(flags, env, [])
    ensures Run(flags, env) == RunResult(NoItems, Success([]), NoPRsNotice)
    ensures Program(flags, env) == Process([], NoPRsNotice, 0)
  {
  }

  /**
   * With items to show, exactly one renderer runs: Markdown if and only if it
   * was requested, JSON if and only if it was requested, the terminal view
   * if and only if neither was; and each branch returns its renderer's
   * result for the fetched items.
   */
  lemma RendererDispatch(flags: Flags, env: Env, items: seq<Item>)
    requires !(flags.markdown && flags.json) && Fetched(flags, env, items) && items != []
    ensures Run(flags, env).branch == MarkdownOut <==> flags.markdown
    ensures Run(flags, env).branch == JsonOut <==> flags.json
    ensures Run(flags, env).branch == TerminalOut <==> !flags.markdown && !flags.json
    ensures Run(flags, env).branch == MarkdownOut ==> Run(flags, env).value == Success(Markdown(items))
    ensures Run(flags, env).branch == JsonOut ==>
      Run(flags, env).value == FromCollaborator(env.marshalIndent(items))
    ensures Run(flags, env).branch == TerminalOut ==>
      Run(flags, env).value == FromCollaborator(env.renderTerminal(items))
    ensures Run(flags, env).stderr == []
  {
  }

  /** The Markdown branch prints the items' lines, each exactly once and in input order. */
  lemma MarkdownProgramOutput(flags: Flags, env: Env, items: seq<Item>, k: nat)
    requires flags.markdown && !flags.json && Fetched(flags, env, items) && k < |items|
    ensures var out := Program(flags, env).stdout; var off := |Markdown(items[..k])|;
      && Program(flags, env).status == 0
      && |out| == LineLengths(items)
      && off + |Line(items[k])| <= |out|
      && out[off..off + |Line(items[k])|] == Line(items[k])
  {
    MarkdownLength(items);
    MarkdownLineAt(items, k);
  }
}
