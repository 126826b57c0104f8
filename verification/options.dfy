/** The endpoint options the tunnel kinds hand to the ngrok client (`config.*Option` in Go),
    and the orders in which Go's `range` may visit a map. */
module Options {

  datatype EndpointOption =
    | WithDomain(domain: string)
    | WithMetadata(metadata: string)
    | WithRemoteAddr(addr: string)
    | WithLabel(key: string, value: string)
    | WithRequestHeader(name: string, value: string)
    | WithRemoveRequestHeader(name: string)
    | WithResponseHeader(name: string, value: string)
    | WithRemoveResponseHeader(name: string)

  predicate NoDuplicates<T(==)>(s: seq<T>) {
    forall i, j :: 0 <= i < j < |s| ==> s[i] != s[j]
  }

  /** `order` is one of the orders in which `for k := range m` may visit the keys of a map:
      each key exactly once. Go leaves the choice open, so the model takes it as an input. */
  predicate Enumerates(order: seq<string>, keys: set<string>) {
    && NoDuplicates(order)
    && (forall i :: 0 <= i < |order| ==> order[i] in keys)
    && (forall k :: k in keys ==> k in order)
  }

  /** A map iteration visits as many keys as the map has. */
  lemma {:induction false} EnumerationLength(order: seq<string>, keys: set<string>)
    requires Enumerates(order, keys)
    ensures |order| == |keys|
    decreases |order|
  {
    if |order| == 0 {
      assert forall k :: k !in keys;
      assert keys == {};
    } else {
      var rest := keys - {order[0]};
      forall k
        ensures k in order[1..] <==> k in rest
      {
        if k in order[1..] {
          var j :| 0 <= j < |order[1..]| && order[1..][j] == k;
          assert order[j + 1] == k;
        }
        if k in rest {
          var j :| 0 <= j < |order| && order[j] == k;
          assert j != 0;
          assert order[1..][j - 1] == k;
        }
      }
      EnumerationLength(order[1..], rest);
    }
  }

  /** The options one visit of `m` writes, one `make(k, m[k])` per key, in visiting order. */
  function EntryOptions(order: seq<string>, m: map<string, string>, make: (string, string) -> EndpointOption): (r: seq<EndpointOption>)
    requires forall i :: 0 <= i < |order| ==> order[i] in m
    ensures |r| == |order|
    ensures forall i :: 0 <= i < |order| ==> r[i] == make(order[i], m[order[i]])
  {
    seq(|order|, i requires 0 <= i < |order| => make(order[i], m[order[i]]))
  }

  /** Different keys never make the same option. */
  ghost predicate KeyInjective(make: (string, string) -> EndpointOption) {
    forall k1, v1, k2, v2 :: make(k1, v1) == make(k2, v2) ==> k1 == k2
  }

  /** `o` is the option `make` builds from some entry of `m`. */
  ghost predicate MadeFromEntry(o: EndpointOption, m: map<string, string>, make: (string, string) -> EndpointOption) {
    exists k :: k in m && o == make(k, m[k])
  }

  /** One visit of `m` writes every entry of `m`, nothing else, and no option twice. */
  lemma EntryOptionsPermutation(order: seq<string>, m: map<string, string>, make: (string, string) -> EndpointOption)
    requires Enumerates(order, m.Keys)
    requires KeyInjective(make)
    ensures forall k :: k in m ==> make(k, m[k]) in EntryOptions(order, m, make)
    ensures forall o :: o in EntryOptions(order, m, make) ==> MadeFromEntry(o, m, make)
    ensures NoDuplicates(EntryOptions(order, m, make))
  {
    var r := EntryOptions(order, m, make);
    forall k | k in m
      ensures make(k, m[k]) in r
    {
      var i :| 0 <= i < |order| && order[i] == k;
      assert r[i] == make(k, m[k]);
    }
    forall o | o in r
      ensures MadeFromEntry(o, m, make)
    {
      var i :| 0 <= i < |r| && r[i] == o;
      assert order[i] in m && o == make(order[i], m[order[i]]);
    }
  }
}
