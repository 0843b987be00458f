# gh-pr-list: a Dafny model of the program's core

gh-pr-list is a GitHub CLI extension. It lists the open pull requests that the
current user authored, optionally only those in one organization. It prints
them as a terminal view with hyperlinks, as a Markdown list, or as JSON.

This project models the first-party logic of `main.go` and proves properties
of it:

- **Flag validation** (`parseFlags`) is modelled by `Flags.ParseFlags`. Markdown
  and JSON output are mutually exclusive. The fatal exit is modelled as an
  error result.
- **The search query** (`fetchPRs`) is modelled by `Search.SearchQuery` and by
  the method `Search.BuildSearchQuery`, which extends a local string in place
  as the source does. The organization value is escaped with a model of Go's
  `url.QueryEscape` (`QueryEscaping.QueryEscape`). That escaper follows the
  `application/x-www-form-urlencoded` convention: it keeps the unreserved
  bytes of section 2.3 of RFC 3986, turns a space into `+`, and writes every
  other byte as `%XX` with uppercase hexadecimal digits. Its inverse,
  `QueryEscaping.QueryUnescape`, models `url.QueryUnescape`. The program never
  calls the unescaper, but it lets the round trip be stated.
- **The Markdown renderer** is the loop of `run` that writes
  `* [#<number> - <title>](<url>)` and a newline for each item. It is modelled
  by the method `MarkdownList.RenderMarkdown` and its specification
  `MarkdownList.Markdown`. The `%d` verb is modelled by `Decimal.FormatInt`,
  and `Decimal.ParseInt` reads its output back.
- **The dispatch in `run` and `main`** is modelled by `Pipeline.Run` and
  `Pipeline.Program`. A client-creation error is passed on. A failed search
  is swallowed: nothing is printed and the status is 0. An empty result
  prints `No PRs found.` to stderr. Otherwise exactly one renderer runs.

Go strings are byte strings. The model writes them as `seq<Byte>`, where a
byte is a character below U+0100. Collaborators whose code is not part of this
model are passed in as function values in `Pipeline.Env`. These are the REST
client (`api.DefaultRESTClient`, `client.Get`), the terminal renderer and
`json.MarshalIndent`.

What the program does not do, and the model therefore does not either:

- Items carry only `title`, `url` and `number`. They have no repository, and
  nothing groups them by repository.
- There is no `limit` flag and no limit check.
- The Markdown output is one flat line per item, without group headers.
- A failed search request is not reported as an error. `run` returns an empty
  string and no error, so the program prints nothing and exits with status 0.
- The output modes are two booleans. Their exclusivity is checked after
  parsing; there is no single mode value.

## Model

| member | source | states |
|---|---|---|
| Flags.ParseFlags | main.go:46-54 | fails, with the message "Cannot use both markdown and JSON output", exactly when both `-markdown` and `-json` are set; otherwise the config is valid (the two modes are not both on) and records the flags unchanged |
| Flags.ParseFlagsExact | main.go:46-54 | ParseFlags yields a config if and only if that config is valid and records exactly the given flags |
| Search.SearchQuery | main.go:59-62 | every query begins with `search/issues?q=is:pr+is:open+author:@me`; the query is exactly that prefix if and only if the organization is empty |
| Search.BuildSearchQuery | main.go:58-62 | building the query by extending a local string in place yields SearchQuery(org) |
| Search.SearchQueryRoundTrip | main.go:59-62 | reading the organization back out of the query yields the organization the query was built from |
| Search.ScopedQueryShape | main.go:60-62 | for a non-empty organization, the query is the prefix, then `+org:`, then exactly QueryEscape(org) and nothing else; that remainder is in escaped form and unescapes to the organization |
| Search.SearchQueryInjective | main.go:59-62 | different organizations give different queries |
| QueryEscaping.QueryEscape | main.go:61 | the escape is at least as long as the input and is empty if and only if the input is |
| QueryEscaping.EscapeIsEscapedForm | main.go:61 | the escape of any string holds only unreserved bytes, `+` and `%`, and every `%` is followed by two uppercase hexadecimal digits |
| QueryEscaping.UnescapeEscape | main.go:61 | unescaping the escape of any string gives back the string |
| QueryEscaping.EscapeInjective | main.go:61 | two different strings never escape to the same text |
| QueryEscaping.EscapeUnreservedIdentity | main.go:61 | a string of unreserved bytes escapes to itself |
| QueryEscaping.EscapeAppend | main.go:61 | escaping a concatenation is the concatenation of the escapes, so the escape is fixed byte by byte |
| QueryEscaping.EscapeInContext | main.go:61 | a byte inside any string is replaced by its own escape, with what precedes and follows it escaped independently |
| QueryEscaping.EscapeSpace | main.go:61 | a space anywhere in the input becomes `+` in the output, and nothing else changes around it |
| QueryEscaping.EscapeUnreserved | main.go:61 | an unreserved byte (RFC 3986 section 2.3) anywhere in the input is kept as it is |
| QueryEscaping.EscapeReserved | main.go:61 | any other byte anywhere becomes `%` followed by two uppercase hexadecimal digits whose value is that byte |
| QueryEscaping.EscapeExamples | main.go:61 | `:` escapes to `%3A` and a space to `+` |
| QueryEscaping.UnescapeReportsFirstBadEscape | main.go:61 | for every input, when the part before a malformed `%` unescapes cleanly, unescaping fails and reports that `%` with at most the two bytes after it |
| QueryEscaping.UnescapeExamples | main.go:61 | three examples: `%3a` unescapes to `:`, `%G1` is reported as `%G1`, and `%4` is reported as `%4` |
| Decimal.NatDigits | main.go:114 | the digits of a natural number form a non-empty digit string with no leading zero, beginning with `0` only for zero |
| Decimal.FormatInt | main.go:114 | `%d` output is non-empty and starts with `-` if and only if the number is negative; a non-negative number gives only digits, a negative one a `-` followed by at least one digit and only digits |
| Decimal.FormatIntRoundTrip | main.go:114 | reading back the `%d` text of any integer gives the integer |
| Decimal.ParseIntCanonical | main.go:114 | every text the reader accepts is the `%d` text of the value it reads, so formatting is a bijection onto canonical decimal strings |
| MarkdownList.Line | main.go:114 | an item's line is 11 bytes longer than its number's `%d` text (sign included), title and url together |
| MarkdownList.RenderMarkdown | main.go:112-116 | the loop that appends one line per item produces Markdown(items), the lines of all items in input order |
| MarkdownList.MarkdownAppend | main.go:113-115 | rendering a concatenation of item lists renders the parts one after the other |
| MarkdownList.MarkdownLength | main.go:113-116 | the output's length is the sum of its lines' lengths |
| MarkdownList.MarkdownLineAt | main.go:113-116 | the line of item k appears in the output directly after the lines of items 0 to k-1 |
| MarkdownList.LineNewlines | main.go:114 | when title and url contain no newline, a line holds exactly one newline, as its last byte |
| MarkdownList.MarkdownLineCount | main.go:113-116 | when no title or url contains a newline, the output holds exactly one newline per item |
| Pipeline.Run | main.go:95-124 | run with its parseFlags call: rejected flags and a failed client are the only error endings before rendering, each if and only if its condition holds; only the empty result writes to stderr; the swallowed fetch error and the empty result return an empty string; the Markdown branch runs only with JSON off, the JSON branch only with Markdown off, the terminal branch only with both off (details in the lemmas below) |
| Pipeline.LogLine | main.go:137 | what log.Fatal writes after its date prefix: the message, and a newline only when the message does not already end in one |
| Pipeline.Program | main.go:127-140 | status 0 if and only if run returned no error, and then stdout is run's output and stderr only run's notice; status 1 if and only if run returned an error, and then stdout is empty and stderr ends with the logged error text |
| Pipeline.ConflictingModesRejected | main.go:46-48 | with both modes requested the run ends in parseFlags, the outcome does not depend on any collaborator (no network call), and the program writes the diagnostic and a newline to stderr and exits with status 1 |
| Pipeline.ClientErrorPassedOn | main.go:97-100 | a client-creation error is returned by run, and main logs its message (with a newline added only if it lacks one) and exits with status 1 |
| Pipeline.FetchErrorSwallowed | main.go:101-104 | a failed search request makes run return an empty string and no error; nothing is printed and the status is 0 |
| Pipeline.NoItemsNotice | main.go:106-109 | an empty item list gives empty output, the notice `No PRs found.` on stderr, and status 0 |
| Pipeline.RendererDispatch | main.go:111-123 | with items to show, the Markdown branch runs if and only if Markdown was requested, the JSON branch if and only if JSON was requested, and the terminal branch if and only if neither was; each returns its renderer's result |
| Pipeline.MarkdownProgramOutput | main.go:111-117 | in Markdown mode the program exits with status 0 and prints the items' lines, each at its place in input order, with total length the sum of the line lengths |

## Left out

- Flag parsing itself (`flag.StringVar`, `flag.BoolVar`, `flag.Parse`) is left out. The three flag values are inputs.
- The REST client is left out. `api.DefaultRESTClient` and `client.Get` are function values in `Pipeline.Env`, and the HTTP request and JSON decoding are not modelled.
- `renderTerminal` and the line template are left out. They depend on the go-gh `term` and `template` libraries for width, color detection and hyperlink escapes, and the template formats the number with the floating-point verb `%.0f`. The terminal renderer is a function value in `Pipeline.Env`, which may fail.
- `json.MarshalIndent` is left out. It is a function value in `Pipeline.Env` that returns text or an error.
- The progress spinner of `main` is left out. It runs concurrently and only writes feedback to stderr.
- The real writes to stdout and stderr are left out, and so is the date and time prefix that `log.Fatal` puts before its message (a clock reading). `Pipeline.Program` records the rest of the text written and the exit status.
- Items' numbers are unbounded integers in the model. In Go they are platform-sized `int` values (64 bits on 64-bit platforms) filled in by the JSON decoder of the client, which is not modelled.
- `url.QueryEscape` and `url.QueryUnescape` come from Go's standard library, which is not part of this model. They are written from that library's documented behaviour.
