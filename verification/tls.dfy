/** The ngrok TLS tunnel: its `tls { ... }` grammar and its endpoint options. */
module TlsTunnel {
  import opened Results
  import opened Caddyfile
  import opened Options

  /** `domain` is the domain for the edge; "" for none. */
  datatype TLS = TLS(domain: string)

  /** `new(TLS)`. */
  const Zero := TLS("")

  /** The subdirectives whose failed single-argument read is dropped. */
  const Drops: set<string> := {"domain"}

  predicate Known(l: Line) {
    l.name == "domain" && !Opens(l)
  }

  /** One subdirective line as the block loop reads it. Only `domain` is known (not `metadata`),
      and it opens no block. A `domain` line with the wrong number of arguments is not refused:
      its `ArgErr` is computed and dropped. */
  function Step(t: TLS, l: Line): (r: Result<TLS>)
    ensures r.Ok? <==> Known(l)
    ensures l.name != "domain" ==> r == Err(UnrecognizedSubdirective(l.name))
    ensures l.name == "domain" && Opens(l) ==> r == Err(UnexpectedBlock(l.name))
    ensures r.Ok? ==> r.value.domain == if NamedWithArg("domain")(l) then FirstArg(l) else t.domain
  {
    if l.name != "domain" then Err(UnrecognizedSubdirective(l.name))
    else if Opens(l) then Err(UnexpectedBlock(l.name))
    else Ok(t.(domain := Arg1(l.args, t.domain)))
  }

  /** One line of the block as written: the lines it is read as, in turn. */
  function ReadStep(t: TLS, l: Line): Result<TLS> {
    Block(t, Reread(Drops, l), Step)
  }

  function UnmarshalCaddyfile(t: TLS, d: seq<Line>): Result<TLS> {
    Unmarshal(t, d, ReadStep)
  }

  /** The subdirective lines of `d` as the block loop reads them. */
  function ReadLines(d: seq<Line>): seq<Line> {
    ReadAll(Drops, Subdirectives(d))
  }

  /** `tls` parses exactly when its directive lines carry no argument and every line the block
      is read as is a `domain` without a block. */
  lemma ParseOkIff(t: TLS, d: seq<Line>)
    ensures UnmarshalCaddyfile(t, d).Ok? <==> NoStrayArgs(d) && AllAccepted(ReadLines(d), Known)
  {
    UnmarshalRereadOkIff(t, d, ReadStep, Drops, Step, Known);
  }

  /** After a successful parse the domain is the first argument of the last line read as
      `domain` that has one; lines without arguments leave it unchanged. */
  lemma ParseDomain(t: TLS, d: seq<Line>)
    ensures UnmarshalCaddyfile(t, d).Ok? ==>
              UnmarshalCaddyfile(t, d).value.domain ==
              LastValue(ReadLines(d), NamedWithArg("domain"), FirstArg, t.domain)
  {
    UnmarshalRereadField(t, d, ReadStep, Drops, Step, (x: TLS) => x.domain, NamedWithArg("domain"), FirstArg);
  }

  /** `domain foo.ngrok.io foo.ngrok.io` fails, on the second domain read as a subdirective; a
      bare `domain` is accepted and leaves the domain empty; `domain d { }` fails. */
  lemma DomainArity()
    ensures UnmarshalCaddyfile(Zero, [Line("tls", [], [Line("domain", ["foo.ngrok.io", "foo.ngrok.io"], [])])]) ==
            Err(UnrecognizedSubdirective("foo.ngrok.io"))
    ensures UnmarshalCaddyfile(Zero, [Line("tls", [], [Line("domain", [], [])])]) == Ok(Zero)
    ensures UnmarshalCaddyfile(Zero, [Line("tls", [], [Line("domain", ["d"], [], true)])]) ==
            Err(UnexpectedBlock("domain"))
  {
    var e := Line("domain", ["d"], [], true);
    assert Reread(Drops, e) == [e];
    var l := Line("domain", ["foo.ngrok.io", "foo.ngrok.io"], []);
    assert "domain" in Drops && l.args[..2] == l.args && l.args[2..] == [];
    assert Reread(Drops, Line("foo.ngrok.io", [], [])) == [Line("foo.ngrok.io", [], [])];
    assert Reread(Drops, l) == [l, Line("foo.ngrok.io", [], [])];
    assert Step(Zero, l) == Ok(TLS("foo.ngrok.io"));
    assert Block(TLS("foo.ngrok.io"), [Line("foo.ngrok.io", [], [])], Step) == Err(UnrecognizedSubdirective("foo.ngrok.io"));
    assert [l, Line("foo.ngrok.io", [], [])][1..] == [Line("foo.ngrok.io", [], [])];
    assert ReadStep(Zero, l) == Err(UnrecognizedSubdirective("foo.ngrok.io"));
    assert Block(Zero, [l], ReadStep) == Err(UnrecognizedSubdirective("foo.ngrok.io"));
  }

  /** Appends one `WithDomain` when a domain is set and nothing otherwise. */
  function ProvisionOpts(t: TLS, opts: seq<EndpointOption>): (r: seq<EndpointOption>)
    ensures |r| == |opts| + (if t.domain != "" then 1 else 0)
    ensures r[..|opts|] == opts
    ensures t.domain != "" ==> r[|opts|] == WithDomain(t.domain)
  {
    if t.domain != "" then opts + [WithDomain(t.domain)] else opts
  }

  /** From directive text to options: a parsed `tls` block yields `WithDomain` of the last
      domain written, or no option when none was. */
  lemma ParsedOptions(d: seq<Line>)
    requires UnmarshalCaddyfile(Zero, d).Ok?
    ensures var domain := LastValue(ReadLines(d), NamedWithArg("domain"), FirstArg, "");
            ProvisionOpts(UnmarshalCaddyfile(Zero, d).value, []) ==
            if domain != "" then [WithDomain(domain)] else []
  {
    ParseDomain(Zero, d);
  }
}
