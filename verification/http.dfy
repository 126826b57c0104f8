/** The ngrok HTTP tunnel: its `http { ... }` grammar and its endpoint options. */
module HttpTunnel {
  import opened Results
  import opened Caddyfile
  import opened Options

  /** `domain` is the domain for the edge and `metadata` an opaque string; "" for none. */
  datatype HTTP = HTTP(domain: string, metadata: string)

  /** `new(HTTP)`. */
  const Zero := HTTP("", "")

  /** The subdirectives whose failed single-argument read is dropped. */
  const Drops: set<string> := {"domain", "metadata"}

  predicate Known(l: Line) {
    l.name in Drops && !Opens(l)
  }

  /** One subdirective line as the block loop reads it. `domain` and `metadata` are known and
      open no block; a line of either with the wrong number of arguments is not refused, since
      its `ArgErr` is computed and dropped. */
  function Step(t: HTTP, l: Line): (r: Result<HTTP>)
    ensures r.Ok? <==> Known(l)
    ensures l.name !in Drops ==> r == Err(UnrecognizedSubdirective(l.name))
    ensures l.name in Drops && Opens(l) ==> r == Err(UnexpectedBlock(l.name))
    ensures r.Ok? ==> r.value.domain == if NamedWithArg("domain")(l) then FirstArg(l) else t.domain
    ensures r.Ok? ==> r.value.metadata == if NamedWithArg("metadata")(l) then FirstArg(l) else t.metadata
  {
    if l.name !in Drops then Err(UnrecognizedSubdirective(l.name))
    else if Opens(l) then Err(UnexpectedBlock(l.name))
    else if l.name == "domain" then Ok(t.(domain := Arg1(l.args, t.domain)))
    else Ok(t.(metadata := Arg1(l.args, t.metadata)))
  }

  /** One line of the block as written: the lines it is read as, in turn. */
  function ReadStep(t: HTTP, l: Line): Result<HTTP> {
    Block(t, Reread(Drops, l), Step)
  }

  function UnmarshalCaddyfile(t: HTTP, d: seq<Line>): Result<HTTP> {
    Unmarshal(t, d, ReadStep)
  }

  /** The subdirective lines of `d` as the block loop reads them. */
  function ReadLines(d: seq<Line>): seq<Line> {
    ReadAll(Drops, Subdirectives(d))
  }

  /** `http` parses exactly when its directive lines carry no argument and every line the block
      is read as is a `domain` or `metadata` without a block. */
  lemma ParseOkIff(t: HTTP, d: seq<Line>)
    ensures UnmarshalCaddyfile(t, d).Ok? <==> NoStrayArgs(d) && AllAccepted(ReadLines(d), Known)
  {
    UnmarshalRereadOkIff(t, d, ReadStep, Drops, Step, Known);
  }

  /** After a successful parse each field holds the first argument of the last line read under
      its name that has one; lines without arguments leave it unchanged. */
  lemma ParseFields(t: HTTP, d: seq<Line>)
    ensures UnmarshalCaddyfile(t, d).Ok? ==>
              UnmarshalCaddyfile(t, d).value.domain ==
              LastValue(ReadLines(d), NamedWithArg("domain"), FirstArg, t.domain)
    ensures UnmarshalCaddyfile(t, d).Ok? ==>
              UnmarshalCaddyfile(t, d).value.metadata ==
              LastValue(ReadLines(d), NamedWithArg("metadata"), FirstArg, t.metadata)
  {
    UnmarshalRereadField(t, d, ReadStep, Drops, Step, (x: HTTP) => x.domain, NamedWithArg("domain"), FirstArg);
    UnmarshalRereadField(t, d, ReadStep, Drops, Step, (x: HTTP) => x.metadata, NamedWithArg("metadata"), FirstArg);
  }

  /** Surplus arguments are read again as a subdirective: `domain foo.ngrok.io foo.ngrok.io`
      fails, while `domain a metadata m` sets both fields; `metadata x` with a block fails, even
      an empty `{ }`. */
  lemma SurplusArguments()
    ensures UnmarshalCaddyfile(Zero, [Line("http", [], [Line("domain", ["foo.ngrok.io", "foo.ngrok.io"], [])])]) ==
            Err(UnrecognizedSubdirective("foo.ngrok.io"))
    ensures UnmarshalCaddyfile(Zero, [Line("http", [], [Line("domain", ["a", "metadata", "m"], [])])]) ==
            Ok(HTTP("a", "m"))
    ensures UnmarshalCaddyfile(Zero, [Line("http", [], [Line("metadata", ["x"], [Line("y", ["z"], [])])])]) ==
            Err(UnexpectedBlock("metadata"))
    ensures UnmarshalCaddyfile(Zero, [Line("http", [], [Line("metadata", ["x"], [], true)])]) ==
            Err(UnexpectedBlock("metadata"))
  {
    var l := Line("domain", ["foo.ngrok.io", "foo.ngrok.io"], []);
    assert "domain" in Drops && l.args[..2] == l.args && l.args[2..] == [];
    assert Reread(Drops, Line("foo.ngrok.io", [], [])) == [Line("foo.ngrok.io", [], [])];
    assert Reread(Drops, l) == [l, Line("foo.ngrok.io", [], [])];
    assert Step(Zero, l) == Ok(HTTP("foo.ngrok.io", ""));
    assert Block(HTTP("foo.ngrok.io", ""), [Line("foo.ngrok.io", [], [])], Step) == Err(UnrecognizedSubdirective("foo.ngrok.io"));
    assert [l, Line("foo.ngrok.io", [], [])][1..] == [Line("foo.ngrok.io", [], [])];
    assert ReadStep(Zero, l) == Err(UnrecognizedSubdirective("foo.ngrok.io"));
    assert Block(Zero, [l], ReadStep) == Err(UnrecognizedSubdirective("foo.ngrok.io"));
    var l2 := Line("domain", ["a", "metadata", "m"], []);
    assert l2.args[..2] == ["a", "metadata"] && l2.args[2..] == ["m"];
    assert Reread(Drops, Line("metadata", ["m"], [])) == [Line("metadata", ["m"], [])];
    assert Reread(Drops, l2) == [Line("domain", ["a", "metadata"], []), Line("metadata", ["m"], [])];
    assert Block(HTTP("a", ""), [Line("metadata", ["m"], [])], Step) == Ok(HTTP("a", "m"));
    assert ReadStep(Zero, l2) == Ok(HTTP("a", "m"));
    assert Block(Zero, [l2], ReadStep) == Ok(HTTP("a", "m"));
    var l3 := Line("metadata", ["x"], [Line("y", ["z"], [])]);
    assert Reread(Drops, l3) == [l3];
    var e := Line("metadata", ["x"], [], true);
    assert Reread(Drops, e) == [e];
  }

  /** Appends `WithDomain` when a domain is set, then `WithMetadata` when metadata is set:
      the earlier options are kept, only these two can appear, each when and only when its
      field is non-empty, and the domain always comes first. */
  function ProvisionOpts(t: HTTP, opts: seq<EndpointOption>): (r: seq<EndpointOption>)
    ensures |r| == |opts| + (if t.domain != "" then 1 else 0) + (if t.metadata != "" then 1 else 0)
    ensures r[..|opts|] == opts
    ensures forall i :: |opts| <= i < |r| ==> r[i] == WithDomain(t.domain) || r[i] == WithMetadata(t.metadata)
    ensures WithDomain(t.domain) in r[|opts|..] <==> t.domain != ""
    ensures WithMetadata(t.metadata) in r[|opts|..] <==> t.metadata != ""
    ensures forall i, j :: |opts| <= i < |r| && |opts| <= j < |r| && r[i].WithDomain? && r[j].WithMetadata? ==> i < j
  {
    var added := (if t.domain != "" then [WithDomain(t.domain)] else []) +
                 (if t.metadata != "" then [WithMetadata(t.metadata)] else []);
    assert (opts + added)[|opts|..] == added;
    opts + added
  }

  /** From directive text to options: a parsed `http` block yields `WithDomain` of the last
      domain written and `WithMetadata` of the last metadata written, each only when non-empty. */
  lemma ParsedOptions(d: seq<Line>)
    requires UnmarshalCaddyfile(Zero, d).Ok?
    ensures var sub := ReadLines(d);
            var domain := LastValue(sub, NamedWithArg("domain"), FirstArg, "");
            var metadata := LastValue(sub, NamedWithArg("metadata"), FirstArg, "");
            ProvisionOpts(UnmarshalCaddyfile(Zero, d).value, []) ==
            (if domain != "" then [WithDomain(domain)] else []) +
            (if metadata != "" then [WithMetadata(metadata)] else [])
  {
    ParseFields(Zero, d);
  }
}
