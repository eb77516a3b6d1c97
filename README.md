# goldap — a verified model of the result formatter and command set-up

`goldap` is a small LDAP command-line tool: it dials a directory server,
upgrades the connection with StartTLS, binds as a user, runs one subtree
search for a query filter given on the command line and prints every
matching entry. This project models, in Dafny, the parts of `goldap.go`
that are the program's own logic rather than calls into the LDAP client
library:

- the result formatter (`printEntry` and the printing block of `main`):
  a `dn:` line per entry, a `name: value` line per attribute value, values
  longer than 100 bytes replaced by `<long>`, entries separated by one
  blank line;
- the split of the positional arguments into the query and the desired
  attributes, with the usage error when there is none;
- the default bind DN `uid=<username>,ou=users,dc=puppetlabs,dc=com` and
  the layering of flags over defaults and environment;
- the run of `main` as a fail-fast sequence of library calls (dial,
  StartTLS, bind, search), with the library's answers as a parameter and
  the calls made recorded as events.

Text is modelled as byte sequences (`ByteStrings.Bytes`), because Go's
`len` counts bytes. Standard output is modelled as the sequence of lines
written: each `Printf` writes one line and its newline, and the separator
`Print("\n")` is an empty line.

Files: `bytestrings.dfy` (bytes, literals, `Option`), `ldap.dfy` (the
library's entry and search-request values), `format.dfy` (the formatter's
specification functions and the printing loops), `format_properties.dfy`
(what the output is proved to look like), `goldap.dfy` (configuration,
bind DN, arguments, the run of `main`).

Three points about the program's behaviour:
- attributes of an entry are an ordered list (the library returns a
  slice), and their order is kept in the output;
- the 100 limit counts bytes;
- the connection is not closed on every path: a failure ends the process
  through a fatal log call, which exits without running the deferred
  `Close`, so `Close` is called only when the run completes.

## Model

| member | source | states |
|---|---|---|
| `Format.ShownValue` | goldap.go:34-38 | a value is printed verbatim exactly when it is at most 100 bytes long (so exactly 100 prints verbatim); whatever is printed is at most 100 bytes |
| `Format.ValueLines` | goldap.go:33-39 | an attribute prints one line per value |
| `Format.AttributeLines` | goldap.go:32-40 | the attribute lines of an entry number the total count of its values |
| `Format.PrintValues` | goldap.go:33-39 | the inner loop writes, value by value, `name: value` or `name: <long>`, which is the specified attribute block |
| `Format.PrintEntry` | goldap.go:30-41 | the nested loops write the `dn:` line and then every attribute's block in order, which is the specified entry block |
| `Format.PrintResults` | goldap.go:89-98 | the printing block writes nothing for no entries, else the first block and then blank line plus block for each further entry, which is the specified output |
| `FormatProperties.ValueLineParts` | goldap.go:34-38 | a value line starts with its attribute's own name and `: `, and continues with the value when it is at most 100 bytes and with `<long>` otherwise |
| `FormatProperties.ValueLinesAt` | goldap.go:33-39 | the j-th line of an attribute is the line of its j-th value (value order kept) |
| `FormatProperties.AttributeLinesAt` | goldap.go:32-40 | the line of value j of attribute i stands after all lines of earlier attributes and earlier values, and carries attribute i's name |
| `FormatProperties.EntryLinesShape` | goldap.go:30-41 | an entry's block has 1 + (number of values) lines, the first is `dn: ` + DN, and the line of value j of attribute i is at its position in attribute-then-value order |
| `FormatProperties.EmptyAttributeSilent` | goldap.go:32-33 | an attribute with no values contributes no lines: the block is the same without it |
| `FormatProperties.EntryLinesNonBlank` | goldap.go:31-38 | no line of an entry's block is blank |
| `FormatProperties.OutputLineCount` | goldap.go:89-98 | no entries give no output; N entries give the lines of their blocks plus N - 1 more |
| `FormatProperties.BlankSeparators` | goldap.go:89-98 | N entries give exactly N - 1 blank lines, and neither the first nor the last line of the output is blank |
| `FormatProperties.OutputSplitsIntoBlocks` | goldap.go:89-98 | splitting the output at its blank lines gives back each entry's block, in result order |
| `FormatProperties.SingleValueEntry` | goldap.go:30-41 | an entry with one short value prints exactly `dn: <DN>` and `name: value` |
| `Goldap.DefaultBindDN` | goldap.go:17-18 | the default bind DN is `uid=` + username + `,ou=users,dc=puppetlabs,dc=com` for every username, including the empty one, and the username can be read back from it |
| `Goldap.BindUsernameInverse` | goldap.go:18 | every DN of that form is the default DN of the username read from it |
| `Goldap.DefaultBindDNInjective` | goldap.go:18 | different usernames give different bind DNs |
| `Goldap.ResolveConfig` | goldap.go:13-28 | each setting is its flag's value when given, else the built-in default or environment value; without a DN flag the bind DN is the templated one for the environment's username |
| `Goldap.SplitArgs` | goldap.go:47-52 | no positional argument is a usage error; otherwise the query is the first argument and the desired attributes are the rest, one fewer than the arguments |
| `Goldap.Execute` | goldap.go:43-98 | a usage error makes no library call at all; dial, StartTLS (server name = hostname, verification on), bind and search (subtree, no alias dereferencing, no limits, filter = query, attributes = the rest) are made in order, each only after the previous succeeded; the first failure ends the run with its error and no output; a complete run prints exactly the formatted result and closes the connection |

## Left out

- Writing to the terminal: output is a sequence of lines; a DN or value holding a newline byte would show as several lines on the terminal, which the model does not split.
- The fatal log calls: the timestamp prefix, the standard-error stream and the exit status 1 are reduced to `Fatal(message)`.
- Flag parsing by the `getopt` library (its syntax, `--help`, parse errors): only its result, the given flags and the positional arguments, is modelled.
- The `host:port` text built for the dial: the dial is recorded with hostname and port as separate values.
- The LDAP client and TLS libraries (dial, StartTLS handshake and certificate check, bind, search, close): foreign calls whose answers are a parameter of the run.
- Reading the environment: the username and password are inputs; an unset variable is the empty string.
- The `ByteValues` field of an attribute and nil entries or attributes in the library's result, which the program never reads or never receives.
- `Format.ValueLines`: its contract gives only the line count; the line-by-line content is `FormatProperties.ValueLinesAt`.
- `Format.AttributeLines`: its contract gives only the line count; positions and names are `FormatProperties.AttributeLinesAt`.
