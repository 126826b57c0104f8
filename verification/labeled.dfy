/** The ngrok labeled tunnel: its `labeled { ... }` grammar with inline and block labels, its
    validation and its endpoint options. */
module LabeledTunnel {
  import opened Results
  import opened Caddyfile
  import opened Options

  /** `labels` is `None` while Go's map is still nil; `metadata` is "" for none. */
  datatype Labeled = Labeled(labels: Option<map<string, string>>, metadata: string)

  /** `new(Labeled)`. */
  const Zero := Labeled(None, "")

  /** The labels as a map; a nil map reads as an empty one. */
  function LabelMap(t: Labeled): map<string, string> {
    t.labels.GetOr(map[])
  }

  /** What `t.Labels[k]` finds, if anything. */
  function Lookup(labels: Option<map<string, string>>, k: string): Option<string> {
    var m := labels.GetOr(map[]);
    if k in m then Some(m[k]) else None
  }

  /** One line `k v` of the block form of `label`: exactly one value, stored under `k`, and no
      block of its own. */
  function LabelLine(m: map<string, string>, l: Line): (r: Result<map<string, string>>)
    ensures r.Ok? <==> OneValue(l)
    ensures |l.args| != 1 ==> r == Err(WrongArgCount(l.name))
    ensures r.Ok? ==> r.value == m[l.name := l.args[0]]
  {
    if |l.args| != 1 then Err(WrongArgCount(l.name))
    else if Opens(l) then Err(UnexpectedBlock(l.name))
    else Ok(m[l.name := l.args[0]])
  }

  predicate OneValue(l: Line) {
    |l.args| == 1 && !Opens(l)
  }

  /** `unmarshalLabels`: the map is made non-nil first; a `label` line with arguments is the
      inline form and needs exactly two, one without is the block form. */
  function UnmarshalLabels(t: Labeled, l: Line): Result<Labeled> {
    var m := LabelMap(t);
    if |l.args| != 0 then
      if |l.args| != 2 then Err(WrongArgCount(l.name))
      else if Opens(l) then Err(UnexpectedBlock(l.name))
      else Ok(t.(labels := Some(m[l.args[0] := l.args[1]])))
    else
      var m' :- Block(m, l.block, LabelLine);
      Ok(t.(labels := Some(m')))
  }

  /** The subdirective lines a `labeled` block accepts. */
  predicate Known(l: Line) {
    if l.name == "metadata" then |l.args| == 1 && !Opens(l)
    else if l.name == "label" then (|l.args| == 2 && !Opens(l)) || (|l.args| == 0 && AllAccepted(l.block, OneValue))
    else false
  }

  /** One line of a `labeled` block: `metadata` with exactly one argument and no block, or
      `label`; anything else, `labels` included, is refused. */
  function Step(t: Labeled, l: Line): (r: Result<Labeled>)
    ensures r.Ok? <==> Known(l)
    ensures l.name != "metadata" && l.name != "label" ==> r == Err(UnrecognizedSubdirective(l.name))
    ensures l.name == "metadata" && |l.args| != 1 ==> r == Err(WrongArgCount(l.name))
    ensures r.Ok? ==> r.value.metadata == if Named("metadata")(l) then FirstArg(l) else t.metadata
    ensures r.Ok? ==> (r.value.labels.Some? <==> t.labels.Some? || l.name == "label")
  {
    if l.name == "metadata" then
      if |l.args| != 1 then Err(WrongArgCount(l.name))
      else if Opens(l) then Err(UnexpectedBlock(l.name))
      else Ok(t.(metadata := l.args[0]))
    else if l.name == "label" then
      BlockOkIff(LabelMap(t), l.block, LabelLine, OneValue);
      UnmarshalLabels(t, l)
    else
      Err(UnrecognizedSubdirective(l.name))
  }

  function UnmarshalCaddyfile(t: Labeled, d: seq<Line>): Result<Labeled> {
    Unmarshal(t, d, Step)
  }

  /** The label entries of the block form, in order. */
  function BlockEntries(lines: seq<Line>): seq<(string, string)>
    decreases |lines|
  {
    if |lines| == 0 then []
    else (if |lines[0].args| > 0 then [(lines[0].name, lines[0].args[0])] else []) + BlockEntries(lines[1..])
  }

  /** The label entries one subdirective line writes. */
  function LineEntries(l: Line): seq<(string, string)> {
    if l.name != "label" then []
    else if |l.args| >= 2 then [(l.args[0], l.args[1])]
    else if |l.args| == 0 then BlockEntries(l.block)
    else []
  }

  /** The label entries of a sequence of subdirective lines, in order. */
  function Entries(lines: seq<Line>): seq<(string, string)>
    decreases |lines|
  {
    if |lines| == 0 then [] else LineEntries(lines[0]) + Entries(lines[1..])
  }

  /** The value of the last entry for `k`, or `initial` when there is none. */
  function LastEntry(entries: seq<(string, string)>, k: string, initial: Option<string>): Option<string>
    decreases |entries|
  {
    if |entries| == 0 then initial
    else if entries[|entries| - 1].0 == k then Some(entries[|entries| - 1].1)
    else LastEntry(entries[..|entries| - 1], k, initial)
  }

  lemma {:induction false} LastEntryAppend(a: seq<(string, string)>, b: seq<(string, string)>, k: string, initial: Option<string>)
    ensures LastEntry(a + b, k, initial) == LastEntry(b, k, LastEntry(a, k, initial))
    decreases |b|
  {
    if |b| == 0 {
      assert a + b == a;
    } else {
      assert (a + b)[..|a + b| - 1] == a + b[..|b| - 1];
      LastEntryAppend(a, b[..|b| - 1], k, initial);
    }
  }

  lemma {:induction false} LastEntryFound(entries: seq<(string, string)>, i: nat, initial: Option<string>)
    requires i < |entries|
    ensures LastEntry(entries, entries[i].0, initial).Some?
    decreases |entries|
  {
    if entries[|entries| - 1].0 != entries[i].0 {
      LastEntryFound(entries[..|entries| - 1], i, initial);
    }
  }

  /** In the block form, each key ends with the value of its last line, other keys unchanged. */
  lemma {:induction false} LabelBlockEntries(m: map<string, string>, lines: seq<Line>)
    ensures Block(m, lines, LabelLine).Ok? ==>
              forall k :: Lookup(Some(Block(m, lines, LabelLine).value), k) ==
                          LastEntry(BlockEntries(lines), k, Lookup(Some(m), k))
    decreases |lines|
  {
    if |lines| > 0 && OneValue(lines[0]) {
      var m1 := m[lines[0].name := lines[0].args[0]];
      var head := [(lines[0].name, lines[0].args[0])];
      LabelBlockEntries(m1, lines[1..]);
      forall k
        ensures Block(m, lines, LabelLine).Ok? ==>
                  Lookup(Some(Block(m, lines, LabelLine).value), k) ==
                  LastEntry(BlockEntries(lines), k, Lookup(Some(m), k))
      {
        LastEntryAppend(head, BlockEntries(lines[1..]), k, Lookup(Some(m), k));
        assert head[..0] == [];
      }
    }
  }

  /** One subdirective line: the keys it writes take its values, every other key is unchanged. */
  lemma StepEntries(t: Labeled, l: Line)
    ensures Step(t, l).Ok? ==>
              forall k :: Lookup(Step(t, l).value.labels, k) == LastEntry(LineEntries(l), k, Lookup(t.labels, k))
  {
    if l.name == "label" && |l.args| == 0 {
      LabelBlockEntries(LabelMap(t), l.block);
    }
  }

  lemma {:induction false} BlockEntriesOf(t: Labeled, lines: seq<Line>)
    ensures Block(t, lines, Step).Ok? ==>
              forall k :: Lookup(Block(t, lines, Step).value.labels, k) ==
                          LastEntry(Entries(lines), k, Lookup(t.labels, k))
    decreases |lines|
  {
    if |lines| > 0 && Step(t, lines[0]).Ok? {
      var t1 := Step(t, lines[0]).value;
      StepEntries(t, lines[0]);
      BlockEntriesOf(t1, lines[1..]);
      forall k
        ensures Block(t, lines, Step).Ok? ==>
                  Lookup(Block(t, lines, Step).value.labels, k) ==
                  LastEntry(Entries(lines), k, Lookup(t.labels, k))
      {
        LastEntryAppend(LineEntries(lines[0]), Entries(lines[1..]), k, Lookup(t.labels, k));
      }
    }
  }

  /** Repeated `label` directives, inline or block, accumulate into one map: after a successful
      parse every key holds the value of its last entry, and keys no entry names keep the value
      they had before. */
  lemma ParseLabels(t: Labeled, d: seq<Line>)
    ensures UnmarshalCaddyfile(t, d).Ok? ==>
              forall k :: Lookup(UnmarshalCaddyfile(t, d).value.labels, k) ==
                          LastEntry(Entries(Subdirectives(d)), k, Lookup(t.labels, k))
  {
    UnmarshalIsBlock(t, d, Step);
    BlockEntriesOf(t, Subdirectives(d));
  }

  /** After any `label` directive the map is no longer nil, even if it holds no entry. */
  lemma ParseLabelsNonNil(t: Labeled, d: seq<Line>)
    ensures UnmarshalCaddyfile(t, d).Ok? ==>
              (UnmarshalCaddyfile(t, d).value.labels.Some? <==>
               t.labels.Some? || exists i :: 0 <= i < |Subdirectives(d)| && Subdirectives(d)[i].name == "label")
  {
    UnmarshalIsBlock(t, d, Step);
    var sub := Subdirectives(d);
    UnmarshalField(t, d, Step, (x: Labeled) => x.labels.Some?, Named("label"), (l: Line) => true);
    LastSomeIff(sub, t.labels.Some?);
  }

  lemma {:induction false} LastSomeIff(lines: seq<Line>, initial: bool)
    ensures LastValue(lines, Named("label"), (l: Line) => true, initial) <==>
            initial || exists i :: 0 <= i < |lines| && lines[i].name == "label"
    decreases |lines|
  {
    if |lines| > 0 {
      var front := lines[..|lines| - 1];
      LastSomeIff(front, initial);
      if exists i :: 0 <= i < |front| && front[i].name == "label" {
        var i :| 0 <= i < |front| && front[i].name == "label";
        assert lines[i] == front[i];
      }
      if exists i :: 0 <= i < |lines| && lines[i].name == "label" {
        var i :| 0 <= i < |lines| && lines[i].name == "label";
        if i < |lines| - 1 {
          assert front[i] == lines[i];
        }
      }
    }
  }

  /** After a successful parse the metadata is the argument of the last `metadata` line. */
  lemma ParseMetadata(t: Labeled, d: seq<Line>)
    ensures UnmarshalCaddyfile(t, d).Ok? ==>
              UnmarshalCaddyfile(t, d).value.metadata ==
              LastValue(Subdirectives(d), Named("metadata"), FirstArg, t.metadata)
  {
    UnmarshalField(t, d, Step, (x: Labeled) => x.metadata, Named("metadata"), FirstArg);
  }

  /** `labeled` parses exactly when its directive lines carry no argument and every subdirective
      is `metadata` with one argument, an inline `label k v`, or a `label` block whose lines each
      carry exactly one value. */
  lemma ParseOkIff(t: Labeled, d: seq<Line>)
    ensures UnmarshalCaddyfile(t, d).Ok? <==> Accepted(d, Known)
  {
    UnmarshalOkIff(t, d, Step, Known);
  }

  /** A labeled tunnel needs at least one label; a nil map and an empty one are both refused. */
  function Validate(t: Labeled): (r: Result<()>)
    ensures r.Ok? <==> exists k :: Lookup(t.labels, k).Some?
    ensures r.Err? ==> r.error == LabelRequired
  {
    if t.labels == None || |t.labels.value| == 0 then
      Err(LabelRequired)
    else
      var k :| k in t.labels.value;
      assert Lookup(t.labels, k).Some?;
      Ok(())
  }

  /** A parsed `labeled` block validates exactly when it wrote at least one label entry; in
      particular `label { }` leaves the map empty and validation still fails. */
  lemma ParsedValidates(d: seq<Line>)
    requires UnmarshalCaddyfile(Zero, d).Ok?
    ensures Validate(UnmarshalCaddyfile(Zero, d).value).Ok? <==> |Entries(Subdirectives(d))| > 0
  {
    var entries := Entries(Subdirectives(d));
    var t := UnmarshalCaddyfile(Zero, d).value;
    ParseLabels(Zero, d);
    if |entries| > 0 {
      LastEntryFound(entries, 0, None);
      assert Lookup(t.labels, entries[0].0).Some?;
    } else {
      assert forall k :: Lookup(t.labels, k) == LastEntry(entries, k, None) == None;
    }
  }

  /** No line of a `labeled` block opens a block of its own except a `label` with no
      arguments; a block under `metadata`, under an inline label or under a label line is an
      error, and so are empty braces there. */
  lemma BlocksRefused()
    ensures UnmarshalCaddyfile(Zero, [Line("labeled", [], [Line("metadata", ["m"], [Line("x", [], [])])])]) ==
            Err(UnexpectedBlock("metadata"))
    ensures UnmarshalCaddyfile(Zero, [Line("labeled", [], [Line("label", ["k", "v"], [Line("x", [], [])])])]) ==
            Err(UnexpectedBlock("label"))
    ensures UnmarshalCaddyfile(Zero, [Line("labeled", [], [Line("label", [], [Line("k", ["v"], [Line("x", [], [])])])])]) ==
            Err(UnexpectedBlock("k"))
    ensures UnmarshalCaddyfile(Zero, [Line("labeled", [], [Line("metadata", ["m"], [], true)])]) ==
            Err(UnexpectedBlock("metadata"))
    ensures UnmarshalCaddyfile(Zero, [Line("labeled", [], [Line("label", ["k", "v"], [], true)])]) ==
            Err(UnexpectedBlock("label"))
    ensures UnmarshalCaddyfile(Zero, [Line("labeled", [], [Line("label", [], [Line("k", ["v"], [], true)], true)])]) ==
            Err(UnexpectedBlock("k"))
  {
  }

  /** `label { }`, and a bare `label`: the map becomes non-nil yet stays empty. */
  lemma EmptyLabelBlock()
    ensures UnmarshalCaddyfile(Zero, [Line("labeled", [], [Line("label", [], [], true)])]) == Ok(Labeled(Some(map[]), ""))
    ensures UnmarshalCaddyfile(Zero, [Line("labeled", [], [Line("label", [], [])])]) == Ok(Labeled(Some(map[]), ""))
    ensures Validate(Labeled(Some(map[]), "")) == Err(LabelRequired)
  {
  }

  function LabelOption(k: string, v: string): EndpointOption {
    WithLabel(k, v)
  }

  /** Appends one `WithLabel` per map entry, in the order the map is visited, then `WithMetadata`
      when metadata is set: the earlier options are kept and the count is the number of labels
      plus one for metadata. */
  function ProvisionOpts(t: Labeled, order: seq<string>, opts: seq<EndpointOption>): (r: seq<EndpointOption>)
    requires Enumerates(order, LabelMap(t).Keys)
    ensures |r| == |opts| + |order| + (if t.metadata != "" then 1 else 0)
    ensures |r| == |opts| + |LabelMap(t)| + (if t.metadata != "" then 1 else 0)
    ensures r[..|opts|] == opts
    ensures forall i :: 0 <= i < |order| ==> r[|opts| + i] == WithLabel(order[i], LabelMap(t)[order[i]])
    ensures WithMetadata(t.metadata) in r[|opts|..] <==> t.metadata != ""
    ensures t.metadata != "" ==> r[|r| - 1] == WithMetadata(t.metadata)
  {
    var m := LabelMap(t);
    var labels := EntryOptions(order, m, LabelOption);
    assert |order| == |m| by {
      EnumerationLength(order, m.Keys);
    }
    assert WithMetadata(t.metadata) !in labels by {
      assert forall i :: 0 <= i < |labels| ==> labels[i].WithLabel?;
    }
    if t.metadata != "" then
      var r := opts + labels + [WithMetadata(t.metadata)];
      assert r[|opts|..] == labels + [WithMetadata(t.metadata)];
      r
    else
      var r := opts + labels;
      assert r[|opts|..] == labels;
      r
  }

  /** `o` is the label option of some entry of `m`. */
  ghost predicate LabelsEntry(m: map<string, string>, o: EndpointOption) {
    exists k :: k in m && o == WithLabel(k, m[k])
  }

  /** The label options are a permutation of the map's entries: each entry appears, nothing
      else does, and none appears twice. */
  lemma ProvisionOptsEachLabelOnce(t: Labeled, order: seq<string>, opts: seq<EndpointOption>)
    requires Enumerates(order, LabelMap(t).Keys)
    ensures var r := ProvisionOpts(t, order, opts);
            var m := LabelMap(t);
            && (forall k :: k in m ==> WithLabel(k, m[k]) in r[|opts|..|opts| + |order|])
            && (forall i :: |opts| <= i < |opts| + |order| ==> LabelsEntry(m, r[i]))
            && NoDuplicates(r[|opts|..|opts| + |order|])
  {
    var r := ProvisionOpts(t, order, opts);
    var s := r[|opts|..|opts| + |order|];
    LabelSlice(t, order, opts);
    LabelsOnce(LabelMap(t), order, s);
    forall i | |opts| <= i < |opts| + |order|
      ensures LabelsEntry(LabelMap(t), r[i])
    {
      assert r[i] == s[i - |opts|];
    }
  }

  /** One visit of the map writes each entry's label option once and nothing else. */
  lemma LabelsOnce(m: map<string, string>, order: seq<string>, labels: seq<EndpointOption>)
    requires Enumerates(order, m.Keys)
    requires labels == EntryOptions(order, m, LabelOption)
    ensures forall k :: k in m ==> WithLabel(k, m[k]) in labels
    ensures forall j :: 0 <= j < |labels| ==> LabelsEntry(m, labels[j])
    ensures NoDuplicates(labels)
  {
    assert KeyInjective(LabelOption);
    EntryOptionsPermutation(order, m, LabelOption);
    forall k | k in m
      ensures WithLabel(k, m[k]) in labels
    {
      assert LabelOption(k, m[k]) in labels;
    }
    forall j | 0 <= j < |labels|
      ensures LabelsEntry(m, labels[j])
    {
      assert order[j] in m && labels[j] == WithLabel(order[j], m[order[j]]);
    }
  }

  /** The label options sit right after the earlier ones. */
  lemma LabelSlice(t: Labeled, order: seq<string>, opts: seq<EndpointOption>)
    requires Enumerates(order, LabelMap(t).Keys)
    ensures ProvisionOpts(t, order, opts)[|opts|..|opts| + |order|] == EntryOptions(order, LabelMap(t), LabelOption)
  {
    var r := ProvisionOpts(t, order, opts);
    var labels := EntryOptions(order, LabelMap(t), LabelOption);
    var s := r[|opts|..|opts| + |order|];
    forall j | 0 <= j < |order|
      ensures s[j] == labels[j]
    {
      assert s[j] == r[|opts| + j];
    }
  }
}
