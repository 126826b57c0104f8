/** The tunnel modules of the `caddy.listeners.ngrok.tunnels` namespace, the raw JSON form a
    tunnel is recorded in, and the two ways Caddy turns text into a tunnel: from a `tunnel` line
    of the Caddyfile, and from the raw form when the session is provisioned. The registry is
    closed: only the four modules of this listener are registered. */
module Tunnels {
  import opened Results
  import opened Caddyfile
  import TcpTunnel
  import TlsTunnel
  import HttpTunnel
  import LabeledTunnel

  datatype Tunnel =
    | Tcp(tcp: TcpTunnel.TCP)
    | Tls(tls: TlsTunnel.TLS)
    | Http(http: HttpTunnel.HTTP)
    | Labeled(labeled: LabeledTunnel.Labeled)

  /** A JSON value as the tunnel structs use them: a string, or an object of strings (labels). */
  datatype Json = Str(s: string) | Obj(entries: map<string, string>)

  /** A JSON object, as held by `json.RawMessage`. */
  type RawObject = map<string, Json>

  const Namespace := "caddy.listeners.ngrok.tunnels"

  /** The key naming the module inside a raw tunnel object (`inline_key=type`). */
  const InlineKey := "type"

  /** The module name each tunnel kind is registered under. */
  function Name(tun: Tunnel): string {
    match tun
    case Tcp(_) => "tcp"
    case Tls(_) => "tls"
    case Http(_) => "http"
    case Labeled(_) => "labeled"
  }

  function Id(name: string): string {
    Namespace + "." + name
  }

  /** The freshly made module (`new(T)`) of the same kind as `tun`. */
  function Blank(tun: Tunnel): (r: Tunnel)
    ensures Name(r) == Name(tun)
  {
    match tun
    case Tcp(_) => Tcp(TcpTunnel.Zero)
    case Tls(_) => Tls(TlsTunnel.Zero)
    case Http(_) => Http(HttpTunnel.Zero)
    case Labeled(_) => Labeled(LabeledTunnel.Zero)
  }

  /** The module registry lookup followed by the module's `New`: a blank tunnel for the four
      registered ids, nothing for any other. */
  function New(id: string): (r: Option<Tunnel>)
    ensures r.Some? ==> Id(Name(r.value)) == id && r.value == Blank(r.value)
  {
    if id == Id("tcp") then Some(Tcp(TcpTunnel.Zero))
    else if id == Id("tls") then Some(Tls(TlsTunnel.Zero))
    else if id == Id("http") then Some(Http(HttpTunnel.Zero))
    else if id == Id("labeled") then Some(Labeled(LabeledTunnel.Zero))
    else None
  }

  /** Exactly the four names resolve, each to a blank module of its own kind. */
  lemma NewResolves(id: string)
    ensures New(id).Some? <==> id in {Id("tcp"), Id("tls"), Id("http"), Id("labeled")}
    ensures forall tun: Tunnel :: New(Id(Name(tun))) == Some(Blank(tun))
  {
    assert "tcp"[1] != "tls"[1] && "tcp"[0] != "http"[0] && "tcp"[0] != "labeled"[0];
    forall a, b | Id(a) == Id(b)
      ensures a == b
    {
      IdInjective(a, b);
    }
  }

  lemma IdInjective(a: string, b: string)
    ensures Id(a) == Id(b) ==> a == b
  {
    if Id(a) == Id(b) {
      assert a == Id(a)[|Namespace| + 1..];
      assert b == Id(b)[|Namespace| + 1..];
    }
  }

  /** Runs the unmarshaler of `blank`'s kind over `d`. */
  function UnmarshalAs(blank: Tunnel, d: seq<Line>): (r: Result<Tunnel>)
    ensures r.Ok? ==> Name(r.value) == Name(blank)
  {
    match blank
    case Tcp(t) => var t' :- TcpTunnel.UnmarshalCaddyfile(t, d); Ok(Tcp(t'))
    case Tls(t) => var t' :- TlsTunnel.UnmarshalCaddyfile(t, d); Ok(Tls(t'))
    case Http(t) => var t' :- HttpTunnel.UnmarshalCaddyfile(t, d); Ok(Http(t'))
    case Labeled(t) => var t' :- LabeledTunnel.UnmarshalCaddyfile(t, d); Ok(Labeled(t'))
  }

  /** `caddyfile.UnmarshalModule`: look the id up, make the module and hand it the segment. */
  function UnmarshalModule(id: string, segment: Line): (r: Result<Tunnel>)
    ensures New(id).None? ==> r == Err(ModuleNotRegistered(id))
    ensures r.Ok? ==> Id(Name(r.value)) == id
  {
    match New(id)
    case None => Err(ModuleNotRegistered(id))
    case Some(blank) => UnmarshalAs(blank, [segment])
  }

  /** The segment a `tunnel` line hands to the module: from the tunnel name to the end of the
      line and its block, or the `tunnel` token itself and its block when no name is given. */
  function Segment(l: Line): (r: Line)
    ensures r.block == l.block
    ensures |l.args| > 0 ==> r.name == l.args[0] && r.args == l.args[1..]
    ensures |l.args| == 0 ==> r == Line(l.name, [], l.block)
  {
    if |l.args| > 0 then Line(l.args[0], l.args[1..], l.block) else Line(l.name, [], l.block)
  }

  /** The tunnel a `tunnel [<name>] { ... }` line describes; the name defaults to `tcp`. */
  function TunnelOf(l: Line): Result<Tunnel> {
    var name := Arg1(l.args, "tcp");
    UnmarshalModule(Id(name), Segment(l))
  }

  /** A string field, left out of the JSON when empty (`omitempty`). */
  function StrField(key: string, v: string): (r: RawObject)
    ensures key in r <==> v != ""
    ensures r.Keys <= {key}
    ensures key in r ==> r[key] == Str(v)
  {
    if v == "" then map[] else map[key := Str(v)]
  }

  /** `json.Marshal` of a tunnel struct: every exported field under its JSON name, empty
      strings and nil or empty label maps omitted. */
  function Encode(tun: Tunnel): RawObject {
    match tun
    case Tcp(t) => StrField("remote_address", t.remoteAddr)
    case Tls(t) => StrField("domain", t.domain)
    case Http(t) => StrField("domain", t.domain) + StrField("metadata", t.metadata)
    case Labeled(t) =>
      (if t.labels.Some? && |t.labels.value| > 0 then map["labels" := Obj(t.labels.value)] else map[])
      + StrField("metadata", t.metadata)
  }

  /** `caddyconfig.JSONModuleObject`: the encoded tunnel with its module name added under `key`,
      and no other key. */
  function JsonModuleObject(tun: Tunnel, key: string, name: string): (r: RawObject)
    ensures r.Keys == Encode(tun).Keys + {key}
    ensures key in r && r[key] == Str(name)
    ensures forall k :: k in r && k != key ==> k in Encode(tun) && r[k] == Encode(tun)[k]
  {
    Encode(tun)[key := Str(name)]
  }

  /** The JSON field names of each kind. */
  function Fields(tun: Tunnel): set<string> {
    match tun
    case Tcp(_) => {"remote_address"}
    case Tls(_) => {"domain"}
    case Http(_) => {"domain", "metadata"}
    case Labeled(_) => {"labels", "metadata"}
  }

  function DecodeString(raw: RawObject, key: string, x: string): (r: Result<string>)
    ensures key !in raw ==> r == Ok(x)
    ensures key in raw ==> (r.Ok? <==> raw[key].Str?)
    ensures key in raw && raw[key].Str? ==> r.value == raw[key].s
  {
    if key !in raw then Ok(x)
    else match raw[key]
      case Str(s) => Ok(s)
      case Obj(_) => Err(WrongFieldType(key))
  }

  /** Decoding an object into a map field adds its entries, making the map when it is nil. */
  function DecodeMap(raw: RawObject, key: string, x: Option<map<string, string>>): (r: Result<Option<map<string, string>>>)
    ensures key !in raw ==> r == Ok(x)
    ensures key in raw ==> (r.Ok? <==> raw[key].Obj?)
    ensures key in raw && raw[key].Obj? ==> r.value == Some(x.GetOr(map[]) + raw[key].entries)
  {
    if key !in raw then Ok(x)
    else match raw[key]
      case Obj(e) => Ok(Some(x.GetOr(map[]) + e))
      case Str(_) => Err(WrongFieldType(key))
  }

  /** Strict JSON decoding into the module `tun`: a field the struct does not have is refused,
      a field of the wrong JSON type is refused, every other field overwrites its struct field. */
  function Decode(tun: Tunnel, raw: RawObject): (r: Result<Tunnel>)
    ensures !(raw.Keys <= Fields(tun)) ==> r == Err(UnknownFields(raw.Keys - Fields(tun)))
    ensures r.Ok? ==> Name(r.value) == Name(tun)
  {
    if !(raw.Keys <= Fields(tun)) then Err(UnknownFields(raw.Keys - Fields(tun)))
    else
      match tun
      case Tcp(t) =>
        var a :- DecodeString(raw, "remote_address", t.remoteAddr);
        Ok(Tcp(t.(remoteAddr := a)))
      case Tls(t) =>
        var dom :- DecodeString(raw, "domain", t.domain);
        Ok(Tls(t.(domain := dom)))
      case Http(t) =>
        var dom :- DecodeString(raw, "domain", t.domain);
        var md :- DecodeString(raw, "metadata", t.metadata);
        Ok(Http(HttpTunnel.HTTP(dom, md)))
      case Labeled(t) =>
        var ls :- DecodeMap(raw, "labels", t.labels);
        var md :- DecodeString(raw, "metadata", t.metadata);
        Ok(Labeled(LabeledTunnel.Labeled(ls, md)))
  }

  /** What survives a trip through JSON: an empty label map is omitted and comes back nil. */
  function Normalize(tun: Tunnel): Tunnel {
    match tun
    case Labeled(t) =>
      if t.labels.Some? && |t.labels.value| == 0 then Labeled(t.(labels := None)) else tun
    case _ => tun
  }

  /** Decoding the encoding of a tunnel into a blank module of its kind gives the tunnel back,
      up to an empty label map becoming nil. */
  lemma DecodeEncode(tun: Tunnel)
    ensures Decode(Blank(tun), Encode(tun)) == Ok(Normalize(tun))
  {
    match tun
    case Tcp(t) => DecodeEncodeTcp(t);
    case Tls(t) => DecodeEncodeTls(t);
    case Http(t) => DecodeEncodeHttp(t);
    case Labeled(t) => DecodeEncodeLabeled(t);
  }

  lemma DecodeEncodeTcp(t: TcpTunnel.TCP)
    ensures Decode(Tcp(TcpTunnel.Zero), Encode(Tcp(t))) == Ok(Tcp(t))
  {
    var raw := Encode(Tcp(t));
    assert raw.Keys <= Fields(Tcp(t));
    assert DecodeString(raw, "remote_address", "") == Ok(t.remoteAddr);
  }

  lemma DecodeEncodeTls(t: TlsTunnel.TLS)
    ensures Decode(Tls(TlsTunnel.Zero), Encode(Tls(t))) == Ok(Tls(t))
  {
    var raw := Encode(Tls(t));
    assert raw.Keys <= Fields(Tls(t));
    assert DecodeString(raw, "domain", "") == Ok(t.domain);
  }

  lemma DecodeEncodeHttp(t: HttpTunnel.HTTP)
    ensures Decode(Http(HttpTunnel.Zero), Encode(Http(t))) == Ok(Http(t))
  {
    var raw := Encode(Http(t));
    assert raw.Keys <= Fields(Http(t));
    assert DecodeString(raw, "domain", "") == Ok(t.domain);
    assert DecodeString(raw, "metadata", "") == Ok(t.metadata);
  }

  lemma DecodeEncodeLabeled(t: LabeledTunnel.Labeled)
    ensures Decode(Labeled(LabeledTunnel.Zero), Encode(Labeled(t))) == Ok(Normalize(Labeled(t)))
  {
    var raw := Encode(Labeled(t));
    var md := StrField("metadata", t.metadata);
    if t.labels.Some? && |t.labels.value| > 0 {
      var m := t.labels.value;
      assert raw == map["labels" := Obj(m)] + md;
      assert raw["labels"] == Obj(m);
      assert DecodeMap(raw, "labels", None) == Ok(Some(m)) by {
        assert map[] + m == m;
      }
    } else {
      assert raw == md;
    }
    assert raw.Keys <= Fields(Labeled(t));
    assert DecodeString(raw, "metadata", "") == Ok(t.metadata);
  }

  /** The module's own `Validate`, which `LoadModule` runs: only labeled tunnels have one. */
  function Validate(tun: Tunnel): (r: Result<()>)
    ensures !tun.Labeled? ==> r.Ok?
    ensures tun.Labeled? ==> r == LabeledTunnel.Validate(tun.labeled)
  {
    match tun
    case Labeled(t) => LabeledTunnel.Validate(t)
    case _ => Ok(())
  }

  /** `ctx.LoadModule` on an inline-keyed raw tunnel: the module name must be a non-empty string
      under `type`; the id must be registered; the rest of the object is strictly decoded into
      the new module, which is then provisioned (nothing the model observes) and validated. */
  function LoadModule(raw: RawObject): (r: Result<Tunnel>)
    ensures !(InlineKey in raw && raw[InlineKey].Str? && raw[InlineKey].s != "") ==>
              r == Err(ModuleNameNotSpecified(InlineKey))
    ensures r.Ok? ==> raw[InlineKey] == Str(Name(r.value)) && Validate(r.value).Ok?
  {
    if InlineKey !in raw || !raw[InlineKey].Str? || raw[InlineKey].s == "" then
      Err(ModuleNameNotSpecified(InlineKey))
    else
      var id := Id(raw[InlineKey].s);
      match New(id)
      case None => Err(ModuleNotRegistered(id))
      case Some(blank) =>
        assert raw[InlineKey].s == Name(blank) by {
          IdInjective(raw[InlineKey].s, Name(blank));
        }
        var tun :- Decode(blank, raw - {InlineKey});
        var _ :- Validate(tun);
        Ok(tun)
  }

  /** What a `tunnel` line records in the session's raw tunnel field: the tunnel's JSON with its
      module name under `type`. */
  function TunnelLine(l: Line): (r: Result<RawObject>)
    ensures r.Ok? <==> TunnelOf(l).Ok?
    ensures r.Ok? ==> r.value == JsonModuleObject(TunnelOf(l).value, InlineKey, Name(TunnelOf(l).value))
  {
    var name := Arg1(l.args, "tcp");
    var tun :- TunnelOf(l);
    assert name == Name(tun) by {
      IdInjective(name, Name(tun));
    }
    Ok(JsonModuleObject(tun, InlineKey, name))
  }

  /** A `tunnel` line names its kind with its one argument, `tcp` when it has none, and a
      second argument is refused by the module's own stray-argument check. */
  lemma TunnelOfShape(l: Line)
    ensures TunnelOf(l).Ok? ==> |l.args| <= 1 && Name(TunnelOf(l).value) == Arg1(l.args, "tcp")
    ensures |l.args| == 0 ==> TunnelOf(l) == UnmarshalAs(Tcp(TcpTunnel.Zero), [Line(l.name, [], l.block)])
    ensures |l.args| > 1 ==>
              TunnelOf(l) == if New(Id(l.args[0])).None? then Err(ModuleNotRegistered(Id(l.args[0])))
                             else Err(StrayArgument(l.args[0], l.args[1]))
  {
    var name := Arg1(l.args, "tcp");
    if TunnelOf(l).Ok? {
      IdInjective(name, Name(TunnelOf(l).value));
    }
  }

  /** Encoded tunnels never carry the inline key themselves. */
  lemma EncodeLeavesInlineKey(tun: Tunnel)
    ensures InlineKey !in Encode(tun)
  {
  }

  /** Validation does not see the difference between a nil and an empty label map. */
  lemma ValidateNormalize(tun: Tunnel)
    ensures Validate(Normalize(tun)) == Validate(tun)
  {
    if tun.Labeled? && tun.labeled.labels.Some? && |tun.labeled.labels.value| == 0 {
      var t := tun.labeled;
      assert !exists k :: LabeledTunnel.Lookup(t.labels, k).Some?;
    }
  }

  /** Loading what a `tunnel` line recorded gives back the tunnel it parsed (an empty label map
      comes back nil), or the module's validation error. */
  lemma TunnelLineRoundTrip(l: Line)
    requires TunnelOf(l).Ok?
    ensures LoadModule(TunnelLine(l).value) ==
            match Validate(TunnelOf(l).value)
            case Ok(_) => Ok(Normalize(TunnelOf(l).value))
            case Err(e) => Err(e)
  {
    var tun := TunnelOf(l).value;
    var raw := TunnelLine(l).value;
    assert raw - {InlineKey} == Encode(tun) by {
      EncodeLeavesInlineKey(tun);
    }
    NewResolves(Id(Name(tun)));
    DecodeEncode(tun);
    ValidateNormalize(tun);
  }
}
