# dns-healthz, modelled in Dafny

dns-healthz is a DNS health-check server. It holds a list of named probes. Each
probe names a DNS server and a question, and asks it on a fixed interval. It
keeps the latest outcome of every probe in a status table that an HTTP layer
reads. This project models the sequential logic of the `healthz` package:

- `Statuses` (healthz/status.go): the status record. `NewStatus` classifies an
  outcome from the transport error and the response code. `StatusNotFound` is
  the sentinel for unknown names. `String` renders a record.
- `Config` (healthz/config.go): the probe record and its normalisation.
  `GetAddress` adds port 53 when the address has no colon. `GetQuery` builds the
  question from `name,type`, with defaults `www.google.com` and `A`, and a fully
  qualified name. `GetTimeout` and `GetInterval` fall back to 5s and 10s.
- `Healthz` (healthz/healthz.go): the class `Healthz`, holding the probes and
  their statuses as two `seq` fields kept in step (`Valid`). It has the
  constructor `New` and the methods `AddProbe`, `Status`, `AllStatus` and
  `SetStatus`. It also has `Record`, the branch at the end of `probe` that turns
  an exchange outcome into a status, and `Observe`, which stores it.
  The methods are specified by the functions `Placeholders`, `Lookup` and
  `Replaced`. The lemmas beside them prove the round trip and the frame
  properties of the table.
- `Strings`: the parts of Go's `strings` and `fmt` the package uses.
  These are `SplitN` with a limit of 2, `Replace` of a tab by a space, and `%d`.

External inputs are parameters:
- the wall clock (`now: Time`, where `time.Now()` is read);
- the rendering of a time (`showTime`);
- the library's tables `dns.RcodeToString` and `dns.StringToType`. These are
  maps read with Go's map semantics: a missing key reads as `""` or `0`.
- `time.ParseDuration` (`parse: string -> Option<Duration>`);
- the outcome of `dns.ExchangeContext`. This is a transport error, or a reply
  code with the text of each answer record.

The model follows the code as written:
- `AddProbe` appends duplicate names instead of registering each name once.
- `Status` returns the first entry with the tag, so an earlier duplicate
  shadows later ones.
- `setStatus` overwrites every entry with the tag.
- `AllStatus` returns the table itself, not a copy.

## Model

| member | source | states |
|---|---|---|
| `Strings.SplitFirst` | healthz/config.go:45 | `strings.SplitN(s, sep, 2)`: one piece, equal to `s`, exactly when `sep` is absent. Otherwise two pieces joined by `sep` give back `s`, and the first has no `sep`. |
| `Strings.ReplaceAll` | healthz/healthz.go:128 | `strings.Replace(s, "\t", " ", -1)`: same length, each tab becomes a space and every other character stays, so no tab is left. |
| `Strings.IntText` | healthz/status.go:52 | `%d` of the response code: a leading `-` exactly for negative codes, digits after it. |
| `Strings.NatTextRoundTrip` | healthz/status.go:52 | The digits `%d` prints read back as the same number. |
| `Strings.IntTextInjective` | healthz/status.go:52 | Two different codes never print the same text. |
| `Statuses.Error` | healthz/status.go:43-45 | `Error()` returns the stored cause. On a well-formed record its text equals `ErrMsg`, and a non-empty `ErrMsg` means a non-nil error. |
| `Statuses.NewStatus` | healthz/status.go:20-30 | Tag, code, answer and time are copied. With an error: `ErrMsg` is its text and `Error()` is that error, whatever the code. With no error and a non-zero code: `ErrMsg` is the code's name from the table ("" if unnamed) and `Error()` carries the same text. With no error and code 0: no message and nil `Error()`. `Error()` is nil exactly when there was no error and the code was 0. |
| `Statuses.StatusNotFound` | healthz/status.go:32-41 | The sentinel has the given tag, code 0, answer `Not Found`, `ErrMsg` `Probe '<tag>' not found`, and a non-nil `Error()` with that text. |
| `Statuses.NotFoundIsNotHealthy` | healthz/status.go:20-41 | The not-found sentinel always carries a non-empty error. It never equals an error-free record, including a placeholder. |
| `Statuses.String` | healthz/status.go:47-53 | The text starts with `[tag]`, continues with ` Status at <time>: <rcode>` (the code in decimal), and ends with ` - <answer>` when `Error()` is nil and with ` - <answer>: <error>` otherwise. Its length is fixed by the tag, time, code text and message. |
| `Config.GetAddress` | healthz/config.go:44-50 | The address is unchanged when it has a `:`. Otherwise `:53` is appended. The result always has a `:`. |
| `Config.GetAddressIdempotent` | healthz/config.go:44-50 | Normalising a normalised address changes nothing. |
| `Config.Fqdn` | healthz/config.go:67 | The name ends with a dot. It is unchanged if it already did, and gets one dot appended otherwise. |
| `Config.QueryPair` | healthz/config.go:52-65 | An empty query gives the default pair `www.google.com`/`A`. A query without a comma replaces only the name. Otherwise the text before the first comma is the name and the whole rest is the type. |
| `Config.GetQuery` | healthz/config.go:52-68 | One Internet-class question, recursion desired, with a fully qualified name. The name and type are `www.google.com.`/`A` for an empty query, `Fqdn(query)`/`A` without a comma, and otherwise split at the first comma. An unknown type name maps to code 0. |
| `Config.QueryNameIgnoresType` | healthz/config.go:59-64 | For any query text, including an empty name as in `,MX`, text after the first comma never changes the question name, even when it contains more commas. |
| `Config.GetTimeout` | healthz/config.go:70-75 | The parsed duration when parsing succeeds, otherwise 5s. |
| `Config.GetInterval` | healthz/config.go:77-82 | The parsed duration when parsing succeeds, otherwise 10s. |
| `Healthz.Placeholder` | healthz/healthz.go:31 | A placeholder is `newStatus(name, 0, "", nil)`, whatever the code table: code 0, empty answer, nil error. |
| `Healthz.Placeholders` | healthz/healthz.go:28-37 | One placeholder per probe, in order, tagged with that probe's name. |
| `Healthz.FirstMatch` | healthz/healthz.go:67-71 | The index of the first entry with the tag, or the table length if none. No earlier entry has the tag. |
| `Healthz.FirstMatchUnique` | healthz/healthz.go:67-71 | The first-match index is determined by where the tag first occurs. |
| `Healthz.Lookup` | healthz/healthz.go:64-73 | The first entry with the tag when one exists, otherwise the not-found sentinel. |
| `Healthz.Replaced` | healthz/healthz.go:81-89 | Same length. Every entry with `s.Tag` becomes `s`, and every other entry is unchanged. |
| `Healthz.Record` | healthz/healthz.go:123-131 | A transport error is recorded as code 2 (server failure), empty answer, and that error as message and cause. A reply is recorded with its own code. Its answer is "" without answers, otherwise the first answer with each tab turned into a space, so it has no tab. The error is nil exactly when the reply code is 0, and a non-zero code's name is the message. |
| `Healthz.SetThenStatus` | healthz/healthz.go:64-89 | Round trip: after `setStatus(s)` on a table that has `s.Tag`, `Status(s.Tag)` returns `s`. |
| `Healthz.SetLeavesOtherTags` | healthz/healthz.go:81-89 | `setStatus(s)` does not change the lookup of any other tag. |
| `Healthz.SetUnknownIsNoop` | healthz/healthz.go:81-89 | `setStatus(s)` with a tag that has no entry leaves the table unchanged. |
| `Healthz.SetIdempotent` | healthz/healthz.go:81-89 | Storing the same status twice leaves the same table as storing it once. |
| `Healthz.SetKeepsTags` | healthz/healthz.go:81-89 | `setStatus` never adds or removes a name: a tag has an entry afterwards exactly when it had one before. |
| `Healthz.LookupAppend` | healthz/healthz.go:64-71 | Looking up in two tables laid end to end finds the first table's entry when it has one, otherwise the second table's answer. |
| `Healthz.AddProbeLookup` | healthz/healthz.go:39-51 | After appending placeholders, a name already present still finds its old entry, so duplicates are shadowed, not rejected. A new name finds its placeholder. Any other name is still not found. |
| `Healthz.NewAnswersPlaceholder` | healthz/healthz.go:28-37 | In a table fresh from `New(p)`, every configured name looks up to its placeholder. |
| `Healthz.Healthz.ConfiguredNameFound` | healthz/healthz.go:28-89 | While probes and statuses are in step, every configured name has a stored entry at or before its own position, and `Status` answers it from the table, never with the not-found sentinel. |
| `Healthz.Healthz.New` | healthz/healthz.go:28-37 | `probes` is `p` and `status` is one placeholder per probe, tagged `p[i].Name`, in order. |
| `Healthz.Healthz.AddProbe` | healthz/healthz.go:39-51 | `probes` gets `p` appended as given, duplicates included. `status` gets one placeholder per new probe after the unchanged earlier entries. The tables stay in step. |
| `Healthz.Healthz.Probes` | healthz/healthz.go:60-62 | Returns the configured probes. |
| `Healthz.Healthz.Status` | healthz/healthz.go:64-73 | The first stored entry with the tag, or the not-found sentinel when none has it. The table is not modified. |
| `Healthz.Healthz.AllStatus` | healthz/healthz.go:75-79 | Returns the status table itself, in probe order. |
| `Healthz.Healthz.SetStatus` | healthz/healthz.go:81-89 | Every entry with `s.Tag` is replaced by `s`. Length, other entries and probes are unchanged, and the tables stay in step. |
| `Healthz.Healthz.Observe` | healthz/healthz.go:123-131 | One completed check stores `Record(p.Name, outcome)` under the probe's name. |

## Left out

- cmd/dns-healthz/main.go: command-line flags, JSON decoding of probe definitions, the HTTP server, signal handling and shutdown. These are process wiring.
- `Healthz.Start` and the ticker/`select` loop of `probe`, with context cancellation (healthz/healthz.go:53-58, 99-122): goroutines and timing. Only the outcome branch (lines 123-131) is modelled, as `Record` and `Observe`.
- The mutex: the guarded methods are modelled as sequential methods. Goroutines interleaving between calls is not modelled.
- `ReadConfig` and `NewFromConfig`: file reading and YAML decoding.
- `Probe.String`, `Healthz.String` and all logging.
- `dns.ExchangeContext`: the network call becomes the `Exchange` input. `RR.String()` becomes the answer texts in it.
- `dns.RcodeToString`, `dns.StringToType`, `time.ParseDuration`, `time.Now` and `Time.String` are parameters, not their library definitions.
- `Healthz.Healthz.New`: one `now` is used for every placeholder, while the source reads the clock once per placeholder.
- `Healthz.Healthz.AddProbe`: one `now` is used for every placeholder, while the source reads the clock once per placeholder.
- Probes are values here, while the Go code holds `*Probe` pointers. `New` and `AddProbe` read `p[i].Name` and panic on a nil probe, as an empty item in a YAML `probes:` list produces. That panic is not modelled.
- `Healthz.Healthz.Probes`: returns a value, so the aliasing of the Go slice is not captured. A caller writing into the returned slice would change the probes in Go.
- `Healthz.Healthz.AllStatus`: returns a value, so the aliasing of the Go slice is not captured. A caller writing into the returned slice would change the table in Go.
- `Config.Fqdn`: a trailing dot escaped by a backslash is treated as qualifying the name. Newer versions of the library do not count an escaped dot.
- `Config.GetQuery`: the random message ID set by `SetQuestion` is left out. The 16-bit width of type codes is not modelled.
- `GetQuery`'s copy of `defaultQuery` needs no proof here: `DefaultQuery` is an immutable value, so no call can alter it.
- Strings are sequences of characters. Go strings are bytes; nothing here depends on the difference.
- Integers are unbounded. The response code and durations are Go `int`/`int64`, and no operation here can overflow them.
