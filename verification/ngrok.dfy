/** The `ngrok` listener wrapper: its `ngrok { ... }` grammar, how `Provision` resolves the raw
    tunnel into a tunnel module, its `Validate`, and the session (connect) options it builds. */
module NgrokSession {
  import opened Results
  import opened Caddyfile
  import opened Tunnels

  /** The session options the wrapper passes to `ngrok.Listen`. The logger is an opaque handle. */
  datatype ConnectOption =
    | WithLogger
    | WithAuthtokenFromEnv
    | WithAuthtoken(token: string)
    | WithMetadata(metadata: string)
    | WithRegion(region: string)

  /** The exported configuration (`authtoken`, `tunnel`, `metadata`, `region`) and the tunnel
      module `Provision` resolves; `None` stands for a nil raw message or a nil tunnel. */
  datatype Ngrok = Ngrok(authToken: string, tunnelRaw: Option<RawObject>, metadata: string, region: string,
                         tunnel: Option<Tunnel>)

  /** `Ngrok{}`. */
  const Empty := Ngrok("", None, "", "", None)

  /** The raw tunnel `Provision` falls back to when none is configured, as written:
      `{"tunnel": "tcp"}`. */
  const DefaultTunnelRaw: RawObject := map["tunnel" := Str("tcp")]

  /** The fallback keyed by the inline key, `{"type": "tcp"}`. */
  const CorrectedTunnelRaw: RawObject := map[InlineKey := Str("tcp")]

  /** The subdirectives whose failed single-argument read is dropped: `authtoken` only. */
  const Drops: set<string> := {"authtoken"}

  /** The token an `authtoken` line leaves: its one argument, or "" for any other count (the
      failed `AllArgs` is not an error here; it clears the token instead). */
  function AuthTokenOf(l: Line): string {
    if |l.args| == 1 then l.args[0] else ""
  }

  /** The raw tunnel a `tunnel` line records, when it parses. */
  function RawOf(l: Line): Option<RawObject> {
    match TunnelLine(l)
    case Ok(raw) => Some(raw)
    case Err(_) => None
  }

  /** The subdirectives a session block accepts. */
  predicate Known(l: Line) {
    || (l.name == "authtoken" && !Opens(l))
    || (l.name in {"metadata", "region"} && |l.args| == 1 && !Opens(l))
    || (l.name == "tunnel" && TunnelLine(l).Ok?)
  }

  /** One subdirective line of an `ngrok` block as the block loop reads it. Only `tunnel` opens
      a block, which its tunnel module parses. */
  function Step(n: Ngrok, l: Line): (r: Result<Ngrok>)
    ensures r.Ok? <==> Known(l)
    ensures l.name !in {"authtoken", "metadata", "region", "tunnel"} ==> r == Err(UnrecognizedSubdirective(l.name))
    ensures l.name in {"metadata", "region"} && |l.args| != 1 ==> r == Err(WrongArgCount(l.name))
    ensures l.name in {"authtoken", "metadata", "region"} && Known(l.(block := [], braces := false)) && Opens(l) ==>
              r == Err(UnexpectedBlock(l.name))
    ensures l.name == "tunnel" && TunnelLine(l).Err? ==> r == Err(TunnelLine(l).error)
    ensures r.Ok? ==> r.value.authToken == if l.name == "authtoken" then AuthTokenOf(l) else n.authToken
    ensures r.Ok? ==> r.value.metadata == if l.name == "metadata" then FirstArg(l) else n.metadata
    ensures r.Ok? ==> r.value.region == if l.name == "region" then FirstArg(l) else n.region
    ensures r.Ok? ==> r.value.tunnelRaw == if l.name == "tunnel" then RawOf(l) else n.tunnelRaw
    ensures r.Ok? ==> r.value.tunnel == n.tunnel
  {
    match l.name
    case "authtoken" =>
      if Opens(l) then Err(UnexpectedBlock(l.name)) else Ok(n.(authToken := AuthTokenOf(l)))
    case "metadata" =>
      if |l.args| != 1 then Err(WrongArgCount(l.name))
      else if Opens(l) then Err(UnexpectedBlock(l.name))
      else Ok(n.(metadata := l.args[0]))
    case "region" =>
      if |l.args| != 1 then Err(WrongArgCount(l.name))
      else if Opens(l) then Err(UnexpectedBlock(l.name))
      else Ok(n.(region := l.args[0]))
    case "tunnel" =>
      var raw :- TunnelLine(l);
      Ok(n.(tunnelRaw := Some(raw)))
    case _ => Err(UnrecognizedSubdirective(l.name))
  }

  /** One line of the block as written: the lines it is read as, in turn. */
  function ReadStep(n: Ngrok, l: Line): Result<Ngrok> {
    Block(n, Reread(Drops, l), Step)
  }

  function UnmarshalCaddyfile(n: Ngrok, d: seq<Line>): Result<Ngrok> {
    Unmarshal(n, d, ReadStep)
  }

  /** The subdirective lines of `d` as the block loop reads them. */
  function ReadLines(d: seq<Line>): seq<Line> {
    ReadAll(Drops, Subdirectives(d))
  }

  /** An `ngrok` block parses exactly when its directive lines carry no argument and every line
      the block is read as is known: `authtoken` with any count, `metadata` and `region` with one
      argument each, none of them with a block, and `tunnel` lines whose tunnel parses. */
  lemma ParseOkIff(n: Ngrok, d: seq<Line>)
    ensures UnmarshalCaddyfile(n, d).Ok? <==> NoStrayArgs(d) && AllAccepted(ReadLines(d), Known)
  {
    UnmarshalRereadOkIff(n, d, ReadStep, Drops, Step, Known);
  }

  /** After a successful parse each field holds what the last line read under its name wrote:
      the token (or "" from an `authtoken` line with the wrong count), the metadata, the region,
      and the raw form of the last `tunnel` line; fields no line wrote are unchanged. */
  lemma ParseFields(n: Ngrok, d: seq<Line>)
    requires UnmarshalCaddyfile(n, d).Ok?
    ensures UnmarshalCaddyfile(n, d).value.authToken == LastValue(ReadLines(d), Named("authtoken"), AuthTokenOf, n.authToken)
    ensures UnmarshalCaddyfile(n, d).value.metadata == LastValue(ReadLines(d), Named("metadata"), FirstArg, n.metadata)
    ensures UnmarshalCaddyfile(n, d).value.region == LastValue(ReadLines(d), Named("region"), FirstArg, n.region)
    ensures UnmarshalCaddyfile(n, d).value.tunnelRaw == LastValue(ReadLines(d), Named("tunnel"), RawOf, n.tunnelRaw)
    ensures UnmarshalCaddyfile(n, d).value.tunnel == n.tunnel
  {
    UnmarshalRereadField(n, d, ReadStep, Drops, Step, (x: Ngrok) => x.authToken, Named("authtoken"), AuthTokenOf);
    UnmarshalRereadField(n, d, ReadStep, Drops, Step, (x: Ngrok) => x.metadata, Named("metadata"), FirstArg);
    UnmarshalRereadField(n, d, ReadStep, Drops, Step, (x: Ngrok) => x.region, Named("region"), FirstArg);
    UnmarshalRereadField(n, d, ReadStep, Drops, Step, (x: Ngrok) => x.tunnelRaw, Named("tunnel"), RawOf);
    var never := (l: Line) => false;
    UnmarshalRereadField(n, d, ReadStep, Drops, Step, (x: Ngrok) => x.tunnel, never, (l: Line) => n.tunnel);
    LastValueUnassigned(ReadLines(d), never, (l: Line) => n.tunnel, n.tunnel);
  }

  /** An `authtoken` line with surplus arguments clears the token, and its second argument is
      read as the next subdirective: `authtoken a b` fails on `b`, while `authtoken a region r`
      sets the region. Braces after `authtoken t` or `region r`, even empty ones, are refused. */
  lemma AuthTokenSurplus()
    ensures UnmarshalCaddyfile(Empty, [Line("ngrok", [], [Line("authtoken", ["a", "b"], [])])]) ==
            Err(UnrecognizedSubdirective("b"))
    ensures UnmarshalCaddyfile(Empty, [Line("ngrok", [], [Line("authtoken", ["a", "region", "r"], [])])]) ==
            Ok(Empty.(region := "r"))
    ensures UnmarshalCaddyfile(Empty, [Line("ngrok", [], [Line("authtoken", ["t"], [], true)])]) ==
            Err(UnexpectedBlock("authtoken"))
    ensures UnmarshalCaddyfile(Empty, [Line("ngrok", [], [Line("region", ["r"], [], true)])]) ==
            Err(UnexpectedBlock("region"))
  {
    SurplusUnknown();
    SurplusRegion();
    BracesRefused();
  }

  lemma SurplusUnknown()
    ensures ReadStep(Empty, Line("authtoken", ["a", "b"], [])) == Err(UnrecognizedSubdirective("b"))
    ensures UnmarshalCaddyfile(Empty, [Line("ngrok", [], [Line("authtoken", ["a", "b"], [])])]) ==
            Err(UnrecognizedSubdirective("b"))
  {
    var l := Line("authtoken", ["a", "b"], []);
    var b := Line("b", [], []);
    assert "authtoken" in Drops && l.args[..2] == l.args && l.args[2..] == [];
    assert Reread(Drops, b) == [b];
    assert Reread(Drops, l) == [l, b];
    assert Step(Empty, l) == Ok(Empty);
    assert Block(Empty, [b], Step) == Err(UnrecognizedSubdirective("b"));
    assert [l, b][1..] == [b];
    UnmarshalSingle(Empty, "ngrok", l, ReadStep);
  }

  lemma SurplusRegion()
    ensures ReadStep(Empty, Line("authtoken", ["a", "region", "r"], [])) == Ok(Empty.(region := "r"))
    ensures UnmarshalCaddyfile(Empty, [Line("ngrok", [], [Line("authtoken", ["a", "region", "r"], [])])]) ==
            Ok(Empty.(region := "r"))
  {
    var l := Line("authtoken", ["a", "region", "r"], []);
    var rg := Line("region", ["r"], []);
    var a := Line("authtoken", ["a", "region"], []);
    assert l.args[..2] == ["a", "region"] && l.args[2..] == ["r"];
    assert Reread(Drops, rg) == [rg];
    assert Reread(Drops, l) == [a, rg];
    assert [a, rg][1..] == [rg] && [rg][1..] == [];
    assert Block(Empty, [rg], Step) == Ok(Empty.(region := "r"));
    UnmarshalSingle(Empty, "ngrok", l, ReadStep);
  }

  lemma BracesRefused()
    ensures UnmarshalCaddyfile(Empty, [Line("ngrok", [], [Line("authtoken", ["t"], [], true)])]) ==
            Err(UnexpectedBlock("authtoken"))
    ensures UnmarshalCaddyfile(Empty, [Line("ngrok", [], [Line("region", ["r"], [], true)])]) ==
            Err(UnexpectedBlock("region"))
  {
    var ea := Line("authtoken", ["t"], [], true);
    assert Reread(Drops, ea) == [ea];
    UnmarshalSingle(Empty, "ngrok", ea, ReadStep);
    var er := Line("region", ["r"], [], true);
    assert Reread(Drops, er) == [er];
    UnmarshalSingle(Empty, "ngrok", er, ReadStep);
  }

  /** `ngrok { }` leaves the configuration empty, and `tunnel <kind> { }` records `{"type": kind}`
      for each of the four kinds. */
  lemma ParseExamples()
    ensures UnmarshalCaddyfile(Empty, [Line("ngrok", [], [])]) == Ok(Empty)
    ensures forall kind | kind in {"tcp", "tls", "http", "labeled"} ::
              UnmarshalCaddyfile(Empty, [Line("ngrok", [], [Line("authtoken", ["test"], []), Line("tunnel", [kind], [], true)])]) ==
              Ok(Empty.(authToken := "test", tunnelRaw := Some(map[InlineKey := Str(kind)])))
  {
    forall kind | kind in {"tcp", "tls", "http", "labeled"}
      ensures UnmarshalCaddyfile(Empty, [Line("ngrok", [], [Line("authtoken", ["test"], []), Line("tunnel", [kind], [], true)])]) ==
              Ok(Empty.(authToken := "test", tunnelRaw := Some(map[InlineKey := Str(kind)])))
    {
      var auth := Line("authtoken", ["test"], []);
      var tl := Line("tunnel", [kind], [], true);
      EmptyTunnelLine(kind);
      var n1 := Empty.(authToken := "test");
      assert Step(Empty, auth) == Ok(n1);
      assert Step(n1, tl) == Ok(n1.(tunnelRaw := Some(map[InlineKey := Str(kind)])));
      var n2 := n1.(tunnelRaw := Some(map[InlineKey := Str(kind)]));
      assert Reread(Drops, auth) == [auth] && Reread(Drops, tl) == [tl];
      assert [auth][1..] == [] && [tl][1..] == [];
      assert Block(Empty, [auth], Step) == Ok(n1);
      assert Block(n1, [tl], Step) == Ok(n2);
      assert ReadStep(Empty, auth) == Ok(n1);
      assert ReadStep(n1, tl) == Ok(n2);
      assert [auth, tl][1..] == [tl];
      assert [tl][1..] == [];
      assert Block(n1, [tl], ReadStep) == Ok(n2);
      assert Block(Empty, [auth, tl], ReadStep) == Ok(n2);
      var d := [Line("ngrok", [], [auth, tl])];
      assert d[1..] == [];
      assert d[0].block == [auth, tl] && |d[0].args| == 0;
      assert Unmarshal(n2, d[1..], ReadStep) == Ok(n2);
      assert Unmarshal(Empty, d, ReadStep) == Ok(n2);
      assert UnmarshalCaddyfile(Empty, d) == Ok(n2);
    }
  }

  /** `tunnel <kind> { }` parses to the blank module of that kind, recorded as `{"type": kind}`. */
  lemma EmptyTunnelLine(kind: string)
    requires kind in {"tcp", "tls", "http", "labeled"}
    ensures TunnelLine(Line("tunnel", [kind], [], true)) == Ok(map[InlineKey := Str(kind)])
  {
    var l := Line("tunnel", [kind], [], true);
    NewResolves(Id(kind));
    var blank := New(Id(kind)).value;
    assert Segment(l) == Line(kind, [], []);
    assert UnmarshalAs(blank, [Segment(l)]) == Ok(blank) by {
      match blank
      case Tcp(t) => UnmarshalEmpty(t, kind, TcpTunnel.ReadStep);
      case Tls(t) => UnmarshalEmpty(t, kind, TlsTunnel.ReadStep);
      case Http(t) => UnmarshalEmpty(t, kind, HttpTunnel.ReadStep);
      case Labeled(t) => UnmarshalEmpty(t, kind, LabeledTunnel.Step);
    }
    assert Encode(blank) == map[];
  }

  /** `Ngrok.Provision` with the fallback raw tunnel `dflt` and the placeholder replacer, when the
      context has one: the raw tunnel (or the fallback) is loaded as a tunnel module, the raw
      field is cleared as `LoadModule` does, and the token goes through the replacer. */
  function ProvisionWith(n: Ngrok, dflt: RawObject, replacer: Option<string -> string>): (r: Result<Ngrok>)
    ensures r.Ok? <==> LoadModule(n.tunnelRaw.GetOr(dflt)).Ok?
    ensures r.Err? ==> r.error == LoadModule(n.tunnelRaw.GetOr(dflt)).error
    ensures r.Ok? ==> r.value.tunnel == Some(LoadModule(n.tunnelRaw.GetOr(dflt)).value) && r.value.tunnelRaw == None
    ensures r.Ok? ==> r.value.authToken == match replacer case Some(f) => f(n.authToken) case None => n.authToken
    ensures r.Ok? ==> r.value.metadata == n.metadata && r.value.region == n.region
  {
    var tun :- LoadModule(n.tunnelRaw.GetOr(dflt));
    var token := match replacer case Some(f) => f(n.authToken) case None => n.authToken;
    Ok(n.(tunnelRaw := None, tunnel := Some(tun), authToken := token))
  }

  /** `Provision` as written, falling back to `{"tunnel": "tcp"}`. */
  function Provision(n: Ngrok, replacer: Option<string -> string>): Result<Ngrok> {
    ProvisionWith(n, DefaultTunnelRaw, replacer)
  }

  /** `Provision` with the fallback keyed by `type`, as the field's comment intends. */
  function ProvisionCorrected(n: Ngrok, replacer: Option<string -> string>): Result<Ngrok> {
    ProvisionWith(n, CorrectedTunnelRaw, replacer)
  }

  /** As written, a session configured without a `tunnel` line cannot be provisioned: the
      fallback names no module under `type`. */
  lemma DefaultTunnelFails(n: Ngrok, replacer: Option<string -> string>)
    requires n.tunnelRaw == None
    ensures Provision(n, replacer) == Err(ModuleNameNotSpecified(InlineKey))
  {
    assert InlineKey !in DefaultTunnelRaw;
  }

  /** With the fallback keyed by `type`, a session without a `tunnel` line gets a TCP tunnel
      with no remote address. */
  lemma CorrectedDefaultIsTcp(n: Ngrok, replacer: Option<string -> string>)
    requires n.tunnelRaw == None
    ensures ProvisionCorrected(n, replacer).Ok?
    ensures ProvisionCorrected(n, replacer).value.tunnel == Some(Tcp(TcpTunnel.Zero))
  {
    NewResolves(Id("tcp"));
    assert CorrectedTunnelRaw - {InlineKey} == map[];
  }

  /** `ngrok { }` provisions (with the corrected fallback) to a TCP tunnel, and fails as written. */
  lemma EmptyConfigProvision(replacer: Option<string -> string>)
    ensures UnmarshalCaddyfile(Empty, [Line("ngrok", [], [])]) == Ok(Empty)
    ensures Provision(Empty, replacer) == Err(ModuleNameNotSpecified(InlineKey))
    ensures ProvisionCorrected(Empty, replacer).Ok? && ProvisionCorrected(Empty, replacer).value.tunnel == Some(Tcp(TcpTunnel.Zero))
  {
    DefaultTunnelFails(Empty, replacer);
    CorrectedDefaultIsTcp(Empty, replacer);
  }

  /** A session whose last `tunnel` line parsed provisions to exactly that tunnel (an empty
      label map read back as nil) when the tunnel validates, and fails with the tunnel's
      validation error otherwise; with either fallback, since the fallback is not used. */
  lemma ProvisionParsedTunnel(n: Ngrok, l: Line, replacer: Option<string -> string>)
    requires TunnelOf(l).Ok?
    requires n.tunnelRaw == Some(TunnelLine(l).value)
    ensures Provision(n, replacer) == ProvisionCorrected(n, replacer)
    ensures Provision(n, replacer).Ok? <==> Validate(TunnelOf(l).value).Ok?
    ensures Provision(n, replacer).Ok? ==> Provision(n, replacer).value.tunnel == Some(Normalize(TunnelOf(l).value))
    ensures Provision(n, replacer).Err? ==> Provision(n, replacer).error == LabelRequired
  {
    TunnelLineRoundTrip(l);
  }

  /** `Ngrok.Validate`: a tunnel module is required. */
  function ValidateSession(n: Ngrok): (r: Result<()>)
    ensures r.Ok? <==> n.tunnel.Some?
    ensures r.Err? ==> r.error == TunnelRequired
  {
    if n.tunnel.None? then Err(TunnelRequired) else Ok(())
  }

  /** Whatever `Provision` returns successfully passes `Validate`, and its tunnel passed the
      module's own validation. */
  lemma ProvisionedValidates(n: Ngrok, dflt: RawObject, replacer: Option<string -> string>)
    ensures ProvisionWith(n, dflt, replacer).Ok? ==>
              ValidateSession(ProvisionWith(n, dflt, replacer).value).Ok? &&
              Tunnels.Validate(ProvisionWith(n, dflt, replacer).value.tunnel.value).Ok?
  {
  }

  /** `Ngrok.ProvisionOpts`: after the options already built come the logger, exactly one
      authtoken option (from the environment when the token is empty), then metadata and region
      when set, in that order. */
  function ProvisionOpts(n: Ngrok, opts: seq<ConnectOption>): (r: seq<ConnectOption>)
    ensures |r| == |opts| + 2 + (if n.metadata != "" then 1 else 0) + (if n.region != "" then 1 else 0)
    ensures r[..|opts|] == opts
    ensures r[|opts|] == WithLogger
    ensures r[|opts| + 1] == if n.authToken == "" then WithAuthtokenFromEnv else WithAuthtoken(n.authToken)
    ensures WithMetadata(n.metadata) in r[|opts|..] <==> n.metadata != ""
    ensures WithRegion(n.region) in r[|opts|..] <==> n.region != ""
    ensures n.metadata != "" ==> r[|opts| + 2] == WithMetadata(n.metadata)
    ensures n.region != "" ==> r[|r| - 1] == WithRegion(n.region)
  {
    var auth := if n.authToken == "" then WithAuthtokenFromEnv else WithAuthtoken(n.authToken);
    var md := if n.metadata != "" then [WithMetadata(n.metadata)] else [];
    var rg := if n.region != "" then [WithRegion(n.region)] else [];
    var added := [WithLogger, auth] + md + rg;
    assert (opts + added)[|opts|..] == added;
    opts + added
  }

  /** From directive text to session options: once a parsed block is provisioned, the options
      carry the last token written (through the replacer, from the environment when it is
      empty), then the last metadata and the last region written, each only when set. */
  lemma ParsedOptions(d: seq<Line>, dflt: RawObject, replacer: Option<string -> string>)
    requires UnmarshalCaddyfile(Empty, d).Ok?
    ensures ProvisionWith(UnmarshalCaddyfile(Empty, d).value, dflt, replacer).Ok? ==>
            var written := LastValue(ReadLines(d), Named("authtoken"), AuthTokenOf, "");
            var token := match replacer case Some(f) => f(written) case None => written;
            var md := LastValue(ReadLines(d), Named("metadata"), FirstArg, "");
            var rg := LastValue(ReadLines(d), Named("region"), FirstArg, "");
            ProvisionOpts(ProvisionWith(UnmarshalCaddyfile(Empty, d).value, dflt, replacer).value, []) ==
            [WithLogger, if token == "" then WithAuthtokenFromEnv else WithAuthtoken(token)] +
            (if md != "" then [WithMetadata(md)] else []) + (if rg != "" then [WithRegion(rg)] else [])
  {
    ParseFields(Empty, d);
  }
}
