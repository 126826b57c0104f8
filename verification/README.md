# caddy-ngrok-listener configuration front-end, in Dafny

This project models the configuration layer of the Caddy `ngrok` listener wrapper (Go package
`ngroklistener`) and proves properties of it. That layer turns the `ngrok { ... }` Caddyfile
directive into a session record and a tunnel module. The tunnel is one of `tcp`, `tls`, `http` or
`labeled`. The layer then turns those records into the ordered option lists handed to the ngrok
client:

- **Directive parsers**: the `UnmarshalCaddyfile` of the session and of each tunnel kind, and
  `unmarshalLabels`. The Caddyfile dispenser is a sequence of `Line(name, args, block, braces)`.
  `braces` records a `{ }` written after the line even when it holds nothing. A line opens a
  block (`Caddyfile.Opens`) when it has braces or a non-empty block. One
  generic skeleton (`Caddyfile.Unmarshal` and `Caddyfile.Block`) plays the shared
  `for d.Next()` / `NextBlock` loop. Each kind supplies the step for one subdirective line.
- **Tunnel resolution**: how a `tunnel [<kind>] { ... }` line dispatches to the tunnel module and
  records it as a raw JSON object tagged with `type` (module `Tunnels`). How `Provision` loads
  that raw object back into a module: inline module key, closed registry of the four kinds,
  strict field decoding, then the module's own `Validate`.
- **Validators**: `Ngrok.Validate` needs a resolved tunnel. `Labeled.Validate` needs a non-nil,
  non-empty label map.
- **Option builders**: the `ProvisionOpts` of the session and of each tunnel kind, and the
  request and response header `Provision`. Each only appends to the options already built.
  Go's map iteration order is an explicit `order` parameter that must enumerate the map's keys
  exactly once. The properties hold for every such order, so they state the emitted options up
  to permutation.

Error causes are classified (`Results.Error`). In Go most of them are `Dispenser.ArgErr`
values whose text depends on the cursor.

Where the repository's tests and its code disagree, the model follows the code. Example: the
session test "misc opts" expects `server` and `heartbeat_*` to be accepted, but the session
parser refuses every subdirective other than `authtoken`, `metadata`, `region` and `tunnel`.

The header rules follow the code as well. All add options are emitted first, then all remove
options. So for a name that is both added and removed, its add option comes before its remove
option.

Some quirks of the code are kept on purpose:

- A line of `remote_address` (in `tcp`), `domain` (in `tls`), or `domain` or `metadata` (in
  `http`) with no argument is not an error, because the `ArgErr` is computed and dropped. So
  three tests that expect an error disagree with the code: "domain-no-args" of `tls`
  (tls_test.go:70-76), and "domain-no-args" and "metadata-no-args" of `http`
  (http_test.go:309-315 and 374-380).
- When such a line has surplus arguments, its `AllArgs` keeps the first one in the field. It
  then steps back so that the second argument is the dispenser's current token. The block loop
  reads that token as the next subdirective, with the rest of the line as its arguments and the
  line's block as its block (`Caddyfile.Reread`). So `domain foo.ngrok.io foo.ngrok.io` fails on
  the unrecognized subdirective `foo.ngrok.io`, while `domain a metadata m` in `http` sets both
  fields.
- `authtoken` with no argument or with surplus arguments clears the token without an error. Its
  surplus arguments are re-read the same way.
- A block opened under a subdirective that takes none is an error (`Results.UnexpectedBlock`),
  even an empty `{ }`. The dispenser reads its `{` as one more subdirective, which no parser
  knows. Only a `label` with no arguments and a `tunnel` line take a block. A `Line` records
  whether braces follow it (`braces`), so `x { }` and `x` are different inputs
  (`Caddyfile.Opens`).
- TCP always emits `WithRemoteAddr`, even for an empty address.

## Model

| member | source | states |
|---|---|---|
| Caddyfile.UnmarshalOkIff | tcp.go:59-77 | the shared directive loop succeeds exactly when no directive line carries an argument and every subdirective line is accepted, whenever acceptance depends on the line alone |
| Caddyfile.UnmarshalField | ngrok.go:138-170 | a field that each accepted line either overwrites or leaves alone ends the parse holding the value of the last line that writes it, or its earlier value |
| Caddyfile.UnmarshalIsBlock | ngrok.go:133-171 | a successful parse of several directives equals one block over all their subdirective lines in order |
| Caddyfile.Reread | tcp.go:67-70 | a line whose dropped single-argument read meets surplus arguments is read as that line with two arguments and no block, then the line that starts at its second argument, which keeps the block; any other line is read as itself |
| Caddyfile.RereadTokens | tcp.go:67-70 | the tokens each re-read line carries: line `i > 0` is named by argument `2i-1` of the original line; every line but the last carries the two arguments from `2i`; the last carries the rest of the arguments and is not split again |
| Caddyfile.UnmarshalRereadOkIff | ngrok.go:138-170 | with re-reading, the directive loop succeeds iff no directive line carries an argument and every line the blocks are read as is accepted |
| Caddyfile.UnmarshalRereadField | ngrok.go:138-170 | with re-reading, a field ends the parse holding the value of the last line, among those the blocks are read as, that writes it |
| TcpTunnel.Step | tcp.go:66-73 | one line as the block loop reads it: only `remote_address` without a block is accepted, whatever its argument count; any other name is an unrecognized subdirective, and a block is refused; the address becomes the first argument, or stays when there is none |
| TcpTunnel.ParseOkIff | tcp.go:59-77 | a `tcp` block parses iff no directive line has an argument and every line the block is read as, surplus arguments re-read, is a `remote_address` without a block (so `remote_addr` is refused, and `remote_address a b` too) |
| TcpTunnel.ParseRemoteAddr | tcp.go:67-70 | the parsed address is the first argument of the last line read as `remote_address` that has one |
| TcpTunnel.SurplusArguments | tcp.go:66-73 | `remote_address a b` fails on the unrecognized subdirective `b`; a block under `remote_address` fails, even an empty `{ }`; a bare `remote_address` parses to the zero tunnel |
| TcpTunnel.ProvisionOpts | tcp.go:35-38 | exactly one `WithRemoteAddr(RemoteAddr)` is appended, even for an empty address, after the kept earlier options |
| TcpTunnel.ParsedOptions | tcp.go:35-46 | from text to options: a parsed `tcp` block yields the one option carrying the last address written, or "" |
| TlsTunnel.Step | tls.go:68-75 | only `domain` without a block is accepted, whatever its argument count (so `metadata` is refused); the domain becomes the first argument, or stays |
| TlsTunnel.ParseOkIff | tls.go:61-79 | a `tls` block parses iff no directive line has an argument and every line the block is read as is a `domain` without a block |
| TlsTunnel.ParseDomain | tls.go:69-72 | the parsed domain is the first argument of the last line read as `domain` that has one |
| TlsTunnel.DomainArity | tls_test.go:70-84 | `domain foo.ngrok.io foo.ngrok.io` fails, as the test expects; a bare `domain` parses without error, unlike the test's expectation; `domain d { }` fails |
| TlsTunnel.ProvisionOpts | tls.go:45-50 | one `WithDomain` is appended iff the domain is non-empty, nothing otherwise; earlier options are kept |
| TlsTunnel.ParsedOptions | tls.go:45-58 | from text to options for a parsed `tls` block |
| HttpTunnel.Step | http.go:75-86 | `domain` and `metadata` without a block are accepted whatever their argument count; any other name is unrecognized and a block is refused; each sets its own field from its first argument and leaves the other alone |
| HttpTunnel.ParseOkIff | http.go:68-90 | an `http` block parses iff no directive line has an argument and every line the block is read as is a `domain` or `metadata` without a block |
| HttpTunnel.ParseFields | http.go:76-83 | after a parse each field holds the first argument of the last line read under its name that has one, and is unchanged when none has |
| HttpTunnel.SurplusArguments | http_test.go:309-323 | `domain foo.ngrok.io foo.ngrok.io` fails; `domain a metadata m` sets both fields; `metadata` with a block fails, even an empty `{ }` |
| HttpTunnel.ProvisionOpts | http.go:47-57 | `WithDomain` iff the domain is set, then `WithMetadata` iff metadata is set, domain first; nothing else appended; earlier options kept |
| HttpTunnel.ParsedOptions | http.go:47-65 | from text to options for a parsed `http` block |
| LabeledTunnel.LabelLine | labeled.go:125-133 | a line of the block form needs exactly one value and no block, and stores the value under the line's name; a wrong count is a wrong-argument-count error |
| LabeledTunnel.Step | labeled.go:85-96 | `metadata` needs exactly one argument and no block; `label` needs two arguments and no block inline, or a block of one-value lines; anything else, `labels` included, is unrecognized; any `label` line makes the map non-nil |
| LabeledTunnel.ParseOkIff | labeled.go:77-101 | a `labeled` block parses iff the directive line has no argument and every subdirective is known with the right arity |
| LabeledTunnel.BlocksRefused | labeled.go:85-133 | a block under `metadata`, under an inline label or under a label line is an error, and so are empty braces there |
| LabeledTunnel.ParseLabels | labeled.go:103-136 | repeated `label` directives, inline or block, accumulate into one map: each key ends with its last value, other keys keep the value they had |
| LabeledTunnel.ParseLabelsNonNil | labeled.go:109-111 | after a parse the map is non-nil iff it was before or some `label` line appeared, even one that wrote no entry |
| LabeledTunnel.ParseMetadata | labeled.go:86-89 | the parsed metadata is the argument of the last `metadata` line |
| LabeledTunnel.Validate | labeled.go:60-66 | validation succeeds iff some label is present; a nil or empty map fails with "label required" |
| LabeledTunnel.ParsedValidates | labeled.go:60-63 | a parsed block validates iff it wrote at least one label entry |
| LabeledTunnel.EmptyLabelBlock | labeled.go:109-135 | `label { }` and a bare `label` leave a non-nil empty map, which validation refuses |
| LabeledTunnel.ProvisionOpts | labeled.go:46-57 | one `WithLabel` per map entry in visit order, then `WithMetadata` iff metadata is set, last; count is labels plus one for metadata; earlier options kept |
| LabeledTunnel.ProvisionOptsEachLabelOnce | labeled.go:47-50 | the label options are a permutation of the map's entries: each entry appears, nothing else does, none twice |
| HttpHeaders.RemoveOptions | http_request_headers.go:19-21 | one remove option per name of `Removed`, in list order, duplicates kept |
| HttpHeaders.DoReplace | http_request_headers.go:13 | substitution changes only the added values: same names, same removed list |
| HttpHeaders.Provision | http_response_headers.go:12-24 | the options become the earlier ones, then the add options of the substituted map in visit order, then the remove options of `Removed` |
| HttpHeaders.ProvisionHeaders | http_request_headers.go:12-24 | exactly \|Added\| + \|Removed\| options appended after the kept earlier ones; the adds are the substituted map's entries, each once and nothing else; then all removes, in `Removed` order |
| HttpHeaders.AddsArePermutation | http_response_headers.go:15-17 | the add options are a permutation of the substituted `Added` entries |
| HttpHeaders.EmittedShape | http_response_headers.go:15-21 | every add option sits before every remove option, and the counts are \|Added\| and \|Removed\| |
| Tunnels.New | tcp.go:50-57 | a registered id yields a blank module of the kind whose name completes the id |
| Tunnels.NewResolves | labeled.go:30-37 | exactly the four ids `caddy.listeners.ngrok.tunnels.{tcp,tls,http,labeled}` resolve, each to its blank module |
| Tunnels.UnmarshalModule | ngrok.go:158-161 | an unregistered id is an error; a parsed module's id is the one asked for |
| Tunnels.Segment | ngrok.go:154-158 | the module reads the line from its kind name on, or from the `tunnel` token when no name is given, with the line's block |
| Tunnels.TunnelOfShape | ngrok.go:153-161 | the kind is the line's one argument, `tcp` when there is none; a second argument is refused by the module's stray-argument check |
| Tunnels.TunnelLine | ngrok.go:166 | a parsed tunnel line records the tunnel's JSON tagged with its kind under `type` |
| Tunnels.JsonModuleObject | ngrok.go:166 | the keys are exactly the tunnel's encoded keys plus the given key; the module name sits under that key; every other field is the tunnel's own encoding |
| Tunnels.DecodeEncode | labeled.go:20-24 | decoding a tunnel's JSON into a blank module of its kind gives the tunnel back; an empty label map comes back nil |
| Tunnels.Decode | ngrok.go:62 | a field the module does not have is refused; a decoded module keeps its kind |
| Tunnels.Validate | labeled.go:60-66 | only labeled tunnels can fail validation, and they fail as `Labeled.Validate` does |
| Tunnels.LoadModule | ngrok.go:62-66 | loading needs a non-empty module name under `type`; a loaded tunnel has the kind that key names and passed its validation |
| Tunnels.TunnelLineRoundTrip | ngrok.go:153-166 | loading what a `tunnel` line recorded gives back the parsed tunnel when it validates, and the validation error otherwise |
| Tunnels.ValidateNormalize | labeled.go:61 | validation treats a nil and an empty label map alike |
| NgrokSession.Step | ngrok.go:139-169 | session subdirectives: `authtoken` with any count; `metadata`/`region` with one argument; none of these with a block; `tunnel` needs a tunnel that parses; anything else unrecognized; an accepted line sets only its own field (the token for `authtoken`, the argument for `metadata`/`region`, the raw tunnel for `tunnel`); the resolved tunnel is never touched |
| NgrokSession.ParseOkIff | ngrok.go:132-173 | an `ngrok` block parses iff no directive line has an argument and every line the block is read as, surplus `authtoken` arguments re-read, is known |
| NgrokSession.ParseFields | ngrok.go:141-166 | after a parse: token from the last line read as `authtoken` (its one argument, else ""); metadata, region and raw tunnel from their last lines; resolved tunnel unchanged |
| NgrokSession.AuthTokenSurplus | ngrok.go:141-144 | `authtoken a b` fails on the unrecognized `b`; `authtoken a region r` clears the token and sets the region; braces after `authtoken t` or `region r`, even empty, fail |
| NgrokSession.ParseExamples | ngrok_test.go:20-87 | `ngrok { }` leaves the record empty; `tunnel <kind> { }` records `{"type": kind}` for each of the four kinds |
| NgrokSession.EmptyTunnelLine | ngrok_test.go:47-87 | an empty `tunnel <kind>` block resolves to the blank module, recorded as `{"type": kind}` |
| NgrokSession.ProvisionWith | ngrok.go:55-73 | provisioning succeeds iff the raw tunnel, or the fallback when none, loads; then the tunnel is set, the raw field cleared and the token substituted; other fields kept |
| NgrokSession.DefaultTunnelFails | ngrok.go:59-62 | as written, a session without a `tunnel` line fails to provision: the fallback has no module name under `type` |
| NgrokSession.CorrectedDefaultIsTcp | ngrok.go:33-34 | with the fallback keyed by `type`, such a session gets a TCP tunnel with no remote address |
| NgrokSession.EmptyConfigProvision | ngrok_test.go:20-26 | `ngrok { }` parses to the empty record, fails to provision as written, and gets TCP with the corrected fallback |
| NgrokSession.ProvisionParsedTunnel | ngrok.go:59-66 | with a recorded tunnel the fallback is irrelevant; provisioning yields that tunnel iff it validates, else "label required" |
| NgrokSession.ValidateSession | ngrok.go:97-102 | validation fails iff no tunnel has been resolved, with "tunnel required" |
| NgrokSession.ProvisionedValidates | ngrok.go:62-66 | a provisioned session passes `Validate`, and its tunnel passed the module's own validation |
| NgrokSession.ProvisionOpts | ngrok.go:75-94 | logger first, then exactly one auth option (from the environment iff the token is empty), then metadata iff set, then region iff set, last; earlier options kept |
| NgrokSession.ParsedOptions | ngrok.go:75-94 | from text to session options: after provisioning, the options carry the last token written (substituted, from the environment when empty), then the last metadata and region written, each only when set |

## Left out

- Module registration (`init`, `CaddyModule`, the interface assertions): host-plugin glue. Only the four module ids are kept, as a closed registry.
- The tunnels' own `Provision`: it stores the context and the logger, and nothing observable depends on it. The session's logger is an opaque `WithLogger` option.
- `WrapListener` and `ngrok.Listen`: network I/O, and they panic on error.
- `NgrokTunnel` of each kind: it only wraps `ProvisionOpts` into the client's tunnel constructor.
- The zap logging call in `Labeled.ProvisionOpts`: logging only.
- The Caddyfile lexer and the dispenser cursor. Lines are given as a tree.
- Lexer corner cases: a `}` or `{` token used as an argument, and a `{` followed by more tokens on its own line. Lines are given as a tree, so these inputs cannot be written. The cursor and nesting counter are replaced by the lines the block loop ends up reading (`Caddyfile.Reread`).
- `ReplaceKnown` and `doReplace`: the placeholder substitution is an uninterpreted function. The struct holding the header rules, and `doReplace` itself, are not part of this model. `doReplace` is taken to substitute the added values only.
- Go's map iteration order: an arbitrary enumeration of the keys, given as a parameter.
- The order-independent (sorted) emission of map-derived options: the code iterates the map, so only permutation properties are stated.
- `caddyconfig` JSON handling is reduced to objects of strings and string maps, with exact key matching. Go's decoder also matches keys case-insensitively and accepts `null`; neither is modelled.
- The "not an ngrok tunnel" type-assertion error (ngrok.go:162-165): unreachable with the closed registry of four tunnel kinds.
- Features that appear only in tests have no code here and are not modelled: CIDR lists, basic auth, circuit breaker, compression, scheme, websocket conversion, `server`, `heartbeat_*`, tunnel-level TCP/TLS metadata.

## Findings

| source | as written | input that shows it | evidently intended | confidence | as-written member | corrected member |
|---|---|---|---|---|---|---|
| ngrok.go:59-61 | with no tunnel configured, `Provision` falls back to the raw tunnel `{"tunnel": "tcp"}`, but the field is loaded with inline key `type` (ngrok.go:34), so loading fails with "module name not specified with key 'type'" | the Caddyfile `ngrok { }`, which parses without error | fall back to `{"type": "tcp"}`, a TCP tunnel with no remote address, as the field's comment "defaults to 'tcp'" says | high; not executed | NgrokSession.DefaultTunnelFails | NgrokSession.CorrectedDefaultIsTcp |
