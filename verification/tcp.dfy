/** The ngrok TCP tunnel: its `tcp { ... }` grammar and its endpoint options. */
module TcpTunnel {
  import opened Results
  import opened Caddyfile
  import opened Options

  /** `remoteAddr` is the remote TCP address to request for the edge; "" asks for none. */
  datatype TCP = TCP(remoteAddr: string)

  /** `new(TCP)`. */
  const Zero := TCP("")

  /** The subdirectives whose failed single-argument read is dropped, so that their surplus
      arguments are read again as subdirectives. */
  const Drops: set<string> := {"remote_address"}

  predicate Known(l: Line) {
    l.name == "remote_address" && !Opens(l)
  }

  /** One subdirective line as the block loop reads it. Only `remote_address` is known, and it
      opens no block. A `remote_address` line with the wrong number of arguments is not refused:
      its `ArgErr` is computed and dropped, and the address keeps whatever `AllArgs` left in it. */
  function Step(t: TCP, l: Line): (r: Result<TCP>)
    ensures r.Ok? <==> Known(l)
    ensures l.name != "remote_address" ==> r == Err(UnrecognizedSubdirective(l.name))
    ensures l.name == "remote_address" && Opens(l) ==> r == Err(UnexpectedBlock(l.name))
    ensures r.Ok? ==> r.value.remoteAddr == if NamedWithArg("remote_address")(l) then FirstArg(l) else t.remoteAddr
  {
    if l.name != "remote_address" then Err(UnrecognizedSubdirective(l.name))
    else if Opens(l) then Err(UnexpectedBlock(l.name))
    else Ok(t.(remoteAddr := Arg1(l.args, t.remoteAddr)))
  }

  /** One line of the block as written: the lines it is read as, in turn. */
  function ReadStep(t: TCP, l: Line): Result<TCP> {
    Block(t, Reread(Drops, l), Step)
  }

  function UnmarshalCaddyfile(t: TCP, d: seq<Line>): Result<TCP> {
    Unmarshal(t, d, ReadStep)
  }

  /** The subdirective lines of `d` as the block loop reads them. */
  function ReadLines(d: seq<Line>): seq<Line> {
    ReadAll(Drops, Subdirectives(d))
  }

  /** `tcp` parses exactly when its directive lines carry no argument and every line the block
      is read as is a `remote_address` without a block; so `remote_addr` is refused, and so is
      `remote_address a b` unless `b` is itself `remote_address`. */
  lemma ParseOkIff(t: TCP, d: seq<Line>)
    ensures UnmarshalCaddyfile(t, d).Ok? <==> NoStrayArgs(d) && AllAccepted(ReadLines(d), Known)
  {
    UnmarshalRereadOkIff(t, d, ReadStep, Drops, Step, Known);
  }

  /** After a successful parse the address is the first argument of the last line read as
      `remote_address` that has one; lines without arguments leave it unchanged. */
  lemma ParseRemoteAddr(t: TCP, d: seq<Line>)
    ensures UnmarshalCaddyfile(t, d).Ok? ==>
              UnmarshalCaddyfile(t, d).value.remoteAddr ==
              LastValue(ReadLines(d), NamedWithArg("remote_address"), FirstArg, t.remoteAddr)
  {
    UnmarshalRereadField(t, d, ReadStep, Drops, Step, (x: TCP) => x.remoteAddr, NamedWithArg("remote_address"), FirstArg);
  }

  /** Surplus arguments are read again as a subdirective: `remote_address a b` fails on `b`; a
      block under `remote_address` fails too, even an empty `{ }`; a bare `remote_address` is
      accepted. */
  lemma SurplusArguments()
    ensures UnmarshalCaddyfile(Zero, [Line("tcp", [], [Line("remote_address", ["a", "b"], [])])]) ==
            Err(UnrecognizedSubdirective("b"))
    ensures UnmarshalCaddyfile(Zero, [Line("tcp", [], [Line("remote_address", ["a"], [Line("x", [], [])])])]) ==
            Err(UnexpectedBlock("remote_address"))
    ensures UnmarshalCaddyfile(Zero, [Line("tcp", [], [Line("remote_address", ["a"], [], true)])]) ==
            Err(UnexpectedBlock("remote_address"))
    ensures UnmarshalCaddyfile(Zero, [Line("tcp", [], [Line("remote_address", [], [])])]) == Ok(Zero)
  {
    var l := Line("remote_address", ["a", "b"], []);
    assert "remote_address" in Drops && l.args[..2] == l.args && l.args[2..] == [];
    assert Reread(Drops, Line("b", [], [])) == [Line("b", [], [])];
    assert Reread(Drops, l) == [Line("remote_address", ["a", "b"], []), Line("b", [], [])];
    assert Step(Zero, l) == Ok(TCP("a"));
    assert Block(TCP("a"), [Line("b", [], [])], Step) == Err(UnrecognizedSubdirective("b"));
    assert [l, Line("b", [], [])][1..] == [Line("b", [], [])];
    assert ReadStep(Zero, l) == Err(UnrecognizedSubdirective("b"));
    assert Block(Zero, [l], ReadStep) == Err(UnrecognizedSubdirective("b"));
    var m := Line("remote_address", ["a"], [Line("x", [], [])]);
    assert Reread(Drops, m) == [m];
    var e := Line("remote_address", ["a"], [], true);
    assert Reread(Drops, e) == [e];
  }

  /** Appends exactly one `WithRemoteAddr`, even for an empty address, after the options
      already built. */
  function ProvisionOpts(t: TCP, opts: seq<EndpointOption>): (r: seq<EndpointOption>)
    ensures |r| == |opts| + 1
    ensures r[..|opts|] == opts
    ensures r[|opts|] == WithRemoteAddr(t.remoteAddr)
  {
    opts + [WithRemoteAddr(t.remoteAddr)]
  }

  /** From directive text to options: a parsed `tcp` block yields the one option carrying the
      last address written, or "" when none was. */
  lemma ParsedOptions(d: seq<Line>)
    requires UnmarshalCaddyfile(Zero, d).Ok?
    ensures ProvisionOpts(UnmarshalCaddyfile(Zero, d).value, []) ==
            [WithRemoteAddr(LastValue(ReadLines(d), NamedWithArg("remote_address"), FirstArg, ""))]
  {
    ParseRemoteAddr(Zero, d);
  }
}
