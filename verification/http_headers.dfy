/** Request and response header rules of an HTTP tunnel and the endpoint options they emit:
    one "add" option per entry of the `Added` map, then one "remove" option per name of
    `Removed`. The struct that holds them and its `doReplace` are not part of this model; the
    substitution is an uninterpreted function applied to the added values. */
module HttpHeaders {
  import opened Options

  datatype Headers = Headers(added: map<string, string>, removed: seq<string>, opts: seq<EndpointOption>)

  /** Which headers the rules rewrite. */
  datatype Direction = Request | Response

  function AddOption(dir: Direction, name: string, value: string): EndpointOption {
    match dir
    case Request => WithRequestHeader(name, value)
    case Response => WithResponseHeader(name, value)
  }

  function Adder(dir: Direction): (string, string) -> EndpointOption {
    (name: string, value: string) => AddOption(dir, name, value)
  }

  function RemoveOption(dir: Direction, name: string): EndpointOption {
    match dir
    case Request => WithRemoveRequestHeader(name)
    case Response => WithRemoveResponseHeader(name)
  }

  /** One remove option per name, in list order, duplicates kept. */
  function RemoveOptions(dir: Direction, names: seq<string>): (r: seq<EndpointOption>)
    ensures |r| == |names|
    ensures forall i :: 0 <= i < |names| ==> r[i] == RemoveOption(dir, names[i])
  {
    seq(|names|, i requires 0 <= i < |names| => RemoveOption(dir, names[i]))
  }

  /** `o` adds the header of some entry of `m`. */
  ghost predicate AddsEntry(dir: Direction, m: map<string, string>, o: EndpointOption) {
    exists k :: k in m && o == AddOption(dir, k, m[k])
  }

  /** `doReplace`: each added value goes through the placeholder substitution; names and the
      removed list are left alone. */
  function DoReplace(h: Headers, replace: string -> string): (r: Headers)
    ensures r.added.Keys == h.added.Keys
    ensures forall k :: k in r.added ==> r.added[k] == replace(h.added[k])
    ensures r.removed == h.removed && r.opts == h.opts
  {
    h.(added := map k | k in h.added :: replace(h.added[k]))
  }

  /** The `Provision` body shared by both directions: substitute, then append the add options
      in the order the map is visited, then the remove options in list order. */
  method Provision(dir: Direction, h: Headers, replace: string -> string, order: seq<string>) returns (h': Headers)
    requires Enumerates(order, h.added.Keys)
    ensures h'.added == DoReplace(h, replace).added && h'.removed == h.removed
    ensures Enumerates(order, h'.added.Keys)
    ensures h'.opts == h.opts + EntryOptions(order, h'.added, Adder(dir)) + RemoveOptions(dir, h.removed)
  {
    var r := DoReplace(h, replace);
    var opts := r.opts;
    var i := 0;
    while i < |order|
      invariant 0 <= i <= |order|
      invariant opts == h.opts + EntryOptions(order[..i], r.added, Adder(dir))
    {
      AddsSnoc(dir, order, r.added, i);
      opts := opts + [AddOption(dir, order[i], r.added[order[i]])];
      i := i + 1;
    }
    assert order[..i] == order;
    var n := 0;
    while n < |r.removed|
      invariant 0 <= n <= |r.removed|
      invariant opts == h.opts + EntryOptions(order, r.added, Adder(dir)) + RemoveOptions(dir, r.removed[..n])
    {
      RemovesSnoc(dir, r.removed, n);
      opts := opts + [RemoveOption(dir, r.removed[n])];
      n := n + 1;
    }
    assert r.removed[..n] == r.removed;
    h' := r.(opts := opts);
  }

  /** One more key visited appends its add option. */
  lemma AddsSnoc(dir: Direction, order: seq<string>, m: map<string, string>, i: nat)
    requires i < |order| && forall j :: 0 <= j < |order| ==> order[j] in m
    ensures EntryOptions(order[..i + 1], m, Adder(dir)) ==
            EntryOptions(order[..i], m, Adder(dir)) + [AddOption(dir, order[i], m[order[i]])]
  {
    assert order[..i + 1][i] == order[i];
  }

  /** One more name appends its remove option. */
  lemma RemovesSnoc(dir: Direction, names: seq<string>, n: nat)
    requires n < |names|
    ensures RemoveOptions(dir, names[..n + 1]) == RemoveOptions(dir, names[..n]) + [RemoveOption(dir, names[n])]
  {
  }

  /** Where the add and remove options sit in what `Provision` returns. */
  lemma EmittedLayout(base: seq<EndpointOption>, adds: seq<EndpointOption>, removes: seq<EndpointOption>, opts: seq<EndpointOption>)
    requires opts == base + adds + removes
    ensures |opts| == |base| + |adds| + |removes|
    ensures opts[..|base|] == base
    ensures opts[|base|..|base| + |adds|] == adds
    ensures opts[|base| + |adds|..] == removes
  {
    assert opts == base + (adds + removes);
  }

  /** The shape of what `Provision` appends after `base`, for a map `m` and a list `removed`. */
  lemma EmittedShape(dir: Direction, base: seq<EndpointOption>, m: map<string, string>, removed: seq<string>,
                     order: seq<string>, opts: seq<EndpointOption>)
    requires Enumerates(order, m.Keys)
    requires opts == base + EntryOptions(order, m, Adder(dir)) + RemoveOptions(dir, removed)
    ensures |opts| == |base| + |m| + |removed|
    ensures opts[..|base|] == base
    ensures forall k :: k in m ==> AddOption(dir, k, m[k]) in opts[|base|..|base| + |m|]
    ensures forall i :: |base| <= i < |base| + |m| ==> AddsEntry(dir, m, opts[i])
    ensures NoDuplicates(opts[|base|..|base| + |m|])
    ensures opts[|base| + |m|..] == RemoveOptions(dir, removed)
  {
    var adds := EntryOptions(order, m, Adder(dir));
    assert |adds| == |m| by {
      EnumerationLength(order, m.Keys);
    }
    EmittedLayout(base, adds, RemoveOptions(dir, removed), opts);
    AddsArePermutation(dir, order, m, adds);
    AddsAt(dir, m, opts, |base|, adds);
  }

  /** Entry facts about `adds` carry over to where `adds` sits inside `opts`. */
  lemma AddsAt(dir: Direction, m: map<string, string>, opts: seq<EndpointOption>, lo: nat, adds: seq<EndpointOption>)
    requires lo + |adds| <= |opts| && opts[lo..lo + |adds|] == adds
    requires forall j :: 0 <= j < |adds| ==> AddsEntry(dir, m, adds[j])
    ensures forall i :: lo <= i < lo + |adds| ==> AddsEntry(dir, m, opts[i])
  {
    forall i | lo <= i < lo + |adds|
      ensures AddsEntry(dir, m, opts[i])
    {
      assert opts[i] == adds[i - lo];
    }
  }

  /** The add options of one visit of `m` are its entries, each once, nothing else. */
  lemma AddsArePermutation(dir: Direction, order: seq<string>, m: map<string, string>, adds: seq<EndpointOption>)
    requires Enumerates(order, m.Keys)
    requires adds == EntryOptions(order, m, Adder(dir))
    ensures forall k :: k in m ==> AddOption(dir, k, m[k]) in adds
    ensures forall i :: 0 <= i < |adds| ==> AddsEntry(dir, m, adds[i])
    ensures NoDuplicates(adds)
  {
    EntryOptionsPermutation(order, m, Adder(dir));
    forall i | 0 <= i < |adds|
      ensures AddsEntry(dir, m, adds[i])
    {
      assert order[i] in m;
      assert adds[i] == AddOption(dir, order[i], m[order[i]]);
    }
  }

  /** Both directions' `Provision`, stated for either: exactly |Added| + |Removed| options are
      appended after the earlier ones; the add options are the substituted map's entries, each
      once and nothing else; then come the removes, following `Removed`. */
  method ProvisionHeaders(dir: Direction, h: Headers, replace: string -> string, order: seq<string>) returns (h': Headers)
    requires Enumerates(order, h.added.Keys)
    ensures h'.added == DoReplace(h, replace).added && h'.removed == h.removed
    ensures |h'.opts| == |h.opts| + |h.added| + |h.removed|
    ensures h'.opts[..|h.opts|] == h.opts
    ensures forall k :: k in h'.added ==> AddOption(dir, k, h'.added[k]) in h'.opts[|h.opts|..|h.opts| + |h.added|]
    ensures forall i :: |h.opts| <= i < |h.opts| + |h.added| ==>
                        AddsEntry(dir, h'.added, h'.opts[i])
    ensures NoDuplicates(h'.opts[|h.opts|..|h.opts| + |h.added|])
    ensures h'.opts[|h.opts| + |h.added|..] == RemoveOptions(dir, h.removed)
  {
    h' := Provision(dir, h, replace, order);
    assert |h'.added| == |h.added| by {
      assert h'.added.Keys == h.added.Keys;
      assert |h'.added| == |h'.added.Keys| && |h.added| == |h.added.Keys|;
    }
    EmittedShape(dir, h.opts, h'.added, h.removed, order, h'.opts);
  }
}
