/** The Caddyfile directive tree as the unmarshalers see it, and the loop skeleton that every
    `UnmarshalCaddyfile` of the listener shares. The lexer and the Dispenser's cursor are not
    modelled: a block is a sequence of lines, each with a name, its arguments on the same line,
    the lines of the block it opens, and whether it opens one at all: `braces` tells `x { }`
    from `x`. */
module Caddyfile {
  import opened Results

  datatype Line = Line(name: string, args: seq<string>, block: seq<Line>, braces: bool := false)

  /** The line is followed by a block, empty or not. A line with block lines but no braces cannot
      be written, and reads as braced. */
  predicate Opens(l: Line) {
    l.braces || |l.block| > 0
  }

  /** The value `d.Args(&x)` leaves in `x`, and so also `d.AllArgs(&x)`: the first argument when
      the line has one, `x` untouched otherwise. `AllArgs` fills its target before it finds out
      that there are too many arguments. */
  function Arg1(args: seq<string>, x: string): (r: string)
    ensures |args| == 0 ==> r == x
    ensures |args| > 0 ==> r == args[0]
  {
    if |args| > 0 then args[0] else x
  }

  /** The first argument of a line, or "" when it has none. */
  function FirstArg(l: Line): string {
    Arg1(l.args, "")
  }

  /** The lines named `name`. */
  function Named(name: string): Line -> bool {
    (l: Line) => l.name == name
  }

  /** The lines named `name` that carry at least one argument. */
  function NamedWithArg(name: string): Line -> bool {
    (l: Line) => l.name == name && |l.args| > 0
  }

  /** The block loop of every unmarshaler: each subdirective line of a block in turn, the first
      error ending the parse. */
  function Block<T>(t: T, lines: seq<Line>, step: (T, Line) -> Result<T>): Result<T>
    decreases |lines|
  {
    if |lines| == 0 then Ok(t)
    else
      match step(t, lines[0])
      case Err(e) => Err(e)
      case Ok(t1) => Block(t1, lines[1..], step)
  }

  /** The outer loop of every unmarshaler: each directive of the dispenser in turn; one that
      carries an argument of its own is refused, the block of one that does not is handed to
      `Block`. */
  function Unmarshal<T>(t: T, d: seq<Line>, step: (T, Line) -> Result<T>): Result<T>
    decreases |d|
  {
    if |d| == 0 then Ok(t)
    else if |d[0].args| > 0 then Err(StrayArgument(d[0].name, d[0].args[0]))
    else
      match Block(t, d[0].block, step)
      case Err(e) => Err(e)
      case Ok(t1) => Unmarshal(t1, d[1..], step)
  }

  /** The lines one subdirective line is read as. When a line named in `drops` has surplus
      arguments, its single-argument read fails, keeps the first argument, and the error is
      dropped. The dispenser then reads the rest of the line, from the second argument on, as a
      further subdirective line, and that line takes over the block. */
  function Reread(drops: set<string>, l: Line): (r: seq<Line>)
    ensures |r| >= 1 && r[0].name == l.name && r[|r| - 1].block == l.block && r[|r| - 1].braces == l.braces
    ensures !(l.name in drops && |l.args| >= 2) ==> r == [l]
    ensures l.name in drops && |l.args| >= 2 ==> r[0] == Line(l.name, l.args[..2], []) && |r| >= 2 && r[1].name == l.args[1]
    ensures forall i :: 0 <= i < |r| - 1 ==> r[i].name in drops && |r[i].args| == 2 && !Opens(r[i])
    decreases |l.args|
  {
    if l.name in drops && |l.args| >= 2 then
      [Line(l.name, l.args[..2], [])] + Reread(drops, Rest(l))
    else [l]
  }

  /** Which tokens each re-read line carries: line `i > 0` is named by argument `2i - 1` of the
      original line; every line but the last carries the two arguments from `2i`, the last one
      the rest of the line; and the last one is not split again. */
  lemma RereadTokens(drops: set<string>, l: Line)
    ensures var r := Reread(drops, l);
            && (forall i :: 0 < i < |r| ==> 2 * i - 1 < |l.args| && r[i].name == l.args[2 * i - 1])
            && (forall i :: 0 <= i < |r| - 1 ==> 2 * i + 2 <= |l.args| && r[i].args == l.args[2 * i..2 * i + 2])
            && 2 * (|r| - 1) <= |l.args| && r[|r| - 1].args == l.args[2 * (|r| - 1)..]
            && !(r[|r| - 1].name in drops && |r[|r| - 1].args| >= 2)
  {
    RereadNames(drops, l);
    RereadArgs(drops, l);
    RereadLast(drops, l);
  }

  /** The line that starts at the second argument. */
  function Rest(l: Line): Line
    requires |l.args| >= 2
  {
    Line(l.args[1], l.args[2..], l.block, l.braces)
  }

  /** Line `i > 0` of a re-read is named by argument `2i - 1`. */
  lemma {:induction false} RereadNames(drops: set<string>, l: Line)
    ensures var r := Reread(drops, l);
            forall i :: 0 < i < |r| ==> 2 * i - 1 < |l.args| && r[i].name == l.args[2 * i - 1]
    decreases |l.args|
  {
    if l.name in drops && |l.args| >= 2 {
      var r := Reread(drops, l);
      var r' := Reread(drops, Rest(l));
      RereadNames(drops, Rest(l));
      RereadSplit(drops, l);
      forall i | 0 < i < |r|
        ensures 2 * i - 1 < |l.args| && r[i].name == l.args[2 * i - 1]
      {
        assert r[i] == r'[i - 1];
        if i > 1 {
          assert r'[i - 1].name == Rest(l).args[2 * (i - 1) - 1];
        }
      }
    }
  }

  /** A line that is split is its first two arguments followed by the re-read rest. */
  lemma RereadSplit(drops: set<string>, l: Line)
    requires l.name in drops && |l.args| >= 2
    ensures var r := Reread(drops, l);
            |r| == 1 + |Reread(drops, Rest(l))| && forall i :: 0 < i < |r| ==> r[i] == Reread(drops, Rest(l))[i - 1]
  {
  }

  /** Every re-read line but the last carries the two arguments from `2i`. */
  lemma {:induction false} RereadArgs(drops: set<string>, l: Line)
    ensures var r := Reread(drops, l);
            forall i :: 0 <= i < |r| - 1 ==> 2 * i + 2 <= |l.args| && r[i].args == l.args[2 * i..2 * i + 2]
    decreases |l.args|
  {
    var r := Reread(drops, l);
    if l.name in drops && |l.args| >= 2 {
      var r' := Reread(drops, Rest(l));
      RereadArgs(drops, Rest(l));
      RereadSplit(drops, l);
      forall i | 0 < i < |r| - 1
        ensures 2 * i + 2 <= |l.args| && r[i].args == l.args[2 * i..2 * i + 2]
      {
        assert r[i] == r'[i - 1];
        DropSlice(l.args, 2, 2 * (i - 1), 2 * (i - 1) + 2);
      }
    }
  }

  /** The last re-read line carries the remaining arguments and is not split again. */
  lemma {:induction false} RereadLast(drops: set<string>, l: Line)
    ensures var r := Reread(drops, l);
            && 2 * (|r| - 1) <= |l.args| && r[|r| - 1].args == l.args[2 * (|r| - 1)..]
            && !(r[|r| - 1].name in drops && |r[|r| - 1].args| >= 2)
    decreases |l.args|
  {
    if l.name in drops && |l.args| >= 2 {
      var r' := Reread(drops, Rest(l));
      RereadLast(drops, Rest(l));
      RereadSplit(drops, l);
      assert l.args[2..][2 * (|r'| - 1)..] == l.args[2 * |r'|..];
    }
  }

  /** A slice of a suffix is a slice of the whole. */
  lemma DropSlice<X>(s: seq<X>, k: nat, a: nat, b: nat)
    requires k <= |s| && a <= b <= |s| - k
    ensures s[k..][a..b] == s[a + k..b + k]
  {
  }

  /** The lines a sequence of subdirective lines is read as. */
  function ReadAll(drops: set<string>, lines: seq<Line>): seq<Line>
    decreases |lines|
  {
    if |lines| == 0 then [] else Reread(drops, lines[0]) + ReadAll(drops, lines[1..])
  }

  /** No directive line carries an argument of its own. */
  predicate NoStrayArgs(d: seq<Line>) {
    forall i :: 0 <= i < |d| ==> |d[i].args| == 0
  }

  /** The subdirective lines of all directives, in order. */
  function Subdirectives(d: seq<Line>): seq<Line>
    decreases |d|
  {
    if |d| == 0 then [] else d[0].block + Subdirectives(d[1..])
  }

  predicate AllAccepted(lines: seq<Line>, accepts: Line -> bool) {
    forall i :: 0 <= i < |lines| ==> accepts(lines[i])
  }

  /** No directive carries an argument of its own and every subdirective is accepted. */
  predicate Accepted(d: seq<Line>, accepts: Line -> bool) {
    forall i :: 0 <= i < |d| ==> |d[i].args| == 0 && AllAccepted(d[i].block, accepts)
  }

  /** The value given by the last line that `assigns`, or `initial` when none does: the
      reference meaning of a field that each assigning line overwrites. */
  function LastValue<V>(lines: seq<Line>, assigns: Line -> bool, value: Line -> V, initial: V): V
    decreases |lines|
  {
    if |lines| == 0 then initial
    else if assigns(lines[|lines| - 1]) then value(lines[|lines| - 1])
    else LastValue(lines[..|lines| - 1], assigns, value, initial)
  }

  lemma {:induction false} LastValueAppend<V>(a: seq<Line>, b: seq<Line>, assigns: Line -> bool, value: Line -> V, initial: V)
    ensures LastValue(a + b, assigns, value, initial) == LastValue(b, assigns, value, LastValue(a, assigns, value, initial))
    decreases |b|
  {
    if |b| == 0 {
      assert a + b == a;
    } else {
      var b' := b[..|b| - 1];
      assert (a + b)[..|a + b| - 1] == a + b';
      assert (a + b)[|a + b| - 1] == b[|b| - 1];
      LastValueAppend(a, b', assigns, value, initial);
    }
  }

  /** A field no line assigns keeps its initial value. */
  lemma {:induction false} LastValueUnassigned<V>(lines: seq<Line>, assigns: Line -> bool, value: Line -> V, initial: V)
    requires forall i :: 0 <= i < |lines| ==> !assigns(lines[i])
    ensures LastValue(lines, assigns, value, initial) == initial
    decreases |lines|
  {
    if |lines| > 0 {
      LastValueUnassigned(lines[..|lines| - 1], assigns, value, initial);
    }
  }

  /** A directive with one subdirective line parses as that line's step does. */
  lemma UnmarshalSingle<T>(t: T, name: string, l: Line, step: (T, Line) -> Result<T>)
    ensures Unmarshal(t, [Line(name, [], [l])], step) == step(t, l)
  {
    var d := [Line(name, [], [l])];
    assert d[1..] == [] && [l][1..] == [];
    assert Block(t, d[0].block, step) == step(t, l);
  }

  /** A single directive with no arguments and an empty block leaves the record as it was. */
  lemma UnmarshalEmpty<T>(t: T, name: string, step: (T, Line) -> Result<T>)
    ensures Unmarshal(t, [Line(name, [], [])], step) == Ok(t)
  {
    var d := [Line(name, [], [])];
    assert d[1..] == [];
    assert Block(t, d[0].block, step) == Ok(t);
    assert Unmarshal(t, d[1..], step) == Ok(t);
  }

  /** Running a block over `a + b` is running it over `a`, then over `b` from where `a` left off. */
  lemma {:induction false} BlockAppend<T>(t: T, a: seq<Line>, b: seq<Line>, step: (T, Line) -> Result<T>)
    ensures Block(t, a + b, step) ==
            match Block(t, a, step)
            case Err(e) => Err(e)
            case Ok(t1) => Block(t1, b, step)
    decreases |a|
  {
    if |a| == 0 {
      assert a + b == b;
    } else {
      assert (a + b)[0] == a[0];
      assert (a + b)[1..] == a[1..] + b;
      match step(t, a[0])
      case Err(e) =>
      case Ok(t1) => BlockAppend(t1, a[1..], b, step);
    }
  }

  /** When each line's fate does not depend on the record built so far, a block succeeds
      exactly when every one of its lines is accepted. */
  lemma {:induction false} BlockOkIff<T>(t: T, lines: seq<Line>, step: (T, Line) -> Result<T>, accepts: Line -> bool)
    requires forall t': T, l: Line :: step(t', l).Ok? <==> accepts(l)
    ensures Block(t, lines, step).Ok? <==> AllAccepted(lines, accepts)
    decreases |lines|
  {
    if |lines| > 0 {
      assert forall i :: 0 <= i < |lines[1..]| ==> lines[1..][i] == lines[i + 1];
      match step(t, lines[0])
      case Err(e) =>
        assert !accepts(lines[0]);
      case Ok(t1) =>
        BlockOkIff(t1, lines[1..], step, accepts);
        assert AllAccepted(lines, accepts) <==> AllAccepted(lines[1..], accepts) by {
          if AllAccepted(lines[1..], accepts) {
            forall i | 0 <= i < |lines|
              ensures accepts(lines[i])
            {
              if i > 0 {
                assert lines[i] == lines[1..][i - 1];
              }
            }
          }
        }
    }
  }

  /** Under the same condition, a whole dispenser parses exactly when no directive carries an
      argument of its own and every subdirective line is accepted. */
  lemma {:induction false} UnmarshalOkIff<T>(t: T, d: seq<Line>, step: (T, Line) -> Result<T>, accepts: Line -> bool)
    requires forall t': T, l: Line :: step(t', l).Ok? <==> accepts(l)
    ensures Unmarshal(t, d, step).Ok? <==> Accepted(d, accepts)
    decreases |d|
  {
    if |d| > 0 {
      assert forall i :: 0 <= i < |d[1..]| ==> d[1..][i] == d[i + 1];
      if |d[0].args| == 0 {
        BlockOkIff(t, d[0].block, step, accepts);
        match Block(t, d[0].block, step)
        case Err(e) =>
        case Ok(t1) =>
          UnmarshalOkIff(t1, d[1..], step, accepts);
          assert Accepted(d, accepts) <==> Accepted(d[1..], accepts) by {
            if Accepted(d[1..], accepts) {
              forall i | 0 < i < |d|
                ensures |d[i].args| == 0 && AllAccepted(d[i].block, accepts)
              {
                assert d[i] == d[1..][i - 1];
              }
            }
          }
      }
    }
  }

  /** A dispenser that parses is the same as one block holding all its subdirectives. */
  lemma {:induction false} UnmarshalIsBlock<T>(t: T, d: seq<Line>, step: (T, Line) -> Result<T>)
    ensures Unmarshal(t, d, step).Ok? ==> Unmarshal(t, d, step) == Block(t, Subdirectives(d), step)
    decreases |d|
  {
    if |d| > 0 && |d[0].args| == 0 {
      BlockAppend(t, d[0].block, Subdirectives(d[1..]), step);
      match Block(t, d[0].block, step)
      case Err(e) =>
      case Ok(t1) => UnmarshalIsBlock(t1, d[1..], step);
    }
  }

  /** A field that each line either overwrites (when it `assigns`) or leaves alone ends a
      successful block holding the value of the last assigning line. */
  lemma {:induction false} BlockField<T, V>(t: T, lines: seq<Line>, step: (T, Line) -> Result<T>,
                                            get: T -> V, assigns: Line -> bool, value: Line -> V)
    requires forall t': T, l: Line :: step(t', l).Ok? ==>
               get(step(t', l).value) == if assigns(l) then value(l) else get(t')
    ensures Block(t, lines, step).Ok? ==>
              get(Block(t, lines, step).value) == LastValue(lines, assigns, value, get(t))
    decreases |lines|
  {
    if |lines| > 0 {
      match step(t, lines[0])
      case Err(e) =>
      case Ok(t1) =>
        BlockField(t1, lines[1..], step, get, assigns, value);
        assert lines == [lines[0]] + lines[1..];
        LastValueAppend([lines[0]], lines[1..], assigns, value, get(t));
        assert [lines[0]][..0] == [];
    }
  }

  /** The same for a whole dispenser: the last assigning subdirective of any directive wins. */
  lemma UnmarshalField<T, V>(t: T, d: seq<Line>, step: (T, Line) -> Result<T>,
                             get: T -> V, assigns: Line -> bool, value: Line -> V)
    requires forall t': T, l: Line :: step(t', l).Ok? ==>
               get(step(t', l).value) == if assigns(l) then value(l) else get(t')
    ensures Unmarshal(t, d, step).Ok? ==>
              get(Unmarshal(t, d, step).value) == LastValue(Subdirectives(d), assigns, value, get(t))
  {
    UnmarshalIsBlock(t, d, step);
    BlockField(t, Subdirectives(d), step, get, assigns, value);
  }

  /** Reading each line as its re-read lines is reading their concatenation. */
  lemma {:induction false} BlockReadAll<T>(t: T, lines: seq<Line>, outer: (T, Line) -> Result<T>,
                                           drops: set<string>, inner: (T, Line) -> Result<T>)
    requires forall t': T, l: Line :: outer(t', l) == Block(t', Reread(drops, l), inner)
    ensures Block(t, lines, outer) == Block(t, ReadAll(drops, lines), inner)
    decreases |lines|
  {
    if |lines| > 0 {
      BlockAppend(t, Reread(drops, lines[0]), ReadAll(drops, lines[1..]), inner);
      match Block(t, Reread(drops, lines[0]), inner)
      case Err(e) =>
      case Ok(t1) => BlockReadAll(t1, lines[1..], outer, drops, inner);
    }
  }

  /** A dispenser parses exactly when no directive carries an argument and the block over all
      subdirective lines succeeds. */
  lemma {:induction false} UnmarshalOkBlock<T>(t: T, d: seq<Line>, step: (T, Line) -> Result<T>)
    ensures Unmarshal(t, d, step).Ok? <==> NoStrayArgs(d) && Block(t, Subdirectives(d), step).Ok?
    decreases |d|
  {
    if |d| > 0 {
      assert NoStrayArgs(d) <==> |d[0].args| == 0 && NoStrayArgs(d[1..]) by {
        if |d[0].args| == 0 && NoStrayArgs(d[1..]) {
          forall i | 0 < i < |d|
            ensures |d[i].args| == 0
          {
            assert d[i] == d[1..][i - 1];
          }
        }
      }
      if |d[0].args| == 0 {
        BlockAppend(t, d[0].block, Subdirectives(d[1..]), step);
        match Block(t, d[0].block, step)
        case Err(e) =>
        case Ok(t1) => UnmarshalOkBlock(t1, d[1..], step);
      }
    }
  }

  /** With re-reading, a dispenser parses exactly when no directive carries an argument and every
      line the subdirectives are read as is accepted. */
  lemma UnmarshalRereadOkIff<T>(t: T, d: seq<Line>, outer: (T, Line) -> Result<T>, drops: set<string>,
                                inner: (T, Line) -> Result<T>, accepts: Line -> bool)
    requires forall t': T, l: Line :: outer(t', l) == Block(t', Reread(drops, l), inner)
    requires forall t': T, l: Line :: inner(t', l).Ok? <==> accepts(l)
    ensures Unmarshal(t, d, outer).Ok? <==> NoStrayArgs(d) && AllAccepted(ReadAll(drops, Subdirectives(d)), accepts)
  {
    UnmarshalOkBlock(t, d, outer);
    BlockReadAll(t, Subdirectives(d), outer, drops, inner);
    BlockOkIff(t, ReadAll(drops, Subdirectives(d)), inner, accepts);
  }

  /** With re-reading, a field ends holding the value of the last re-read line that writes it. */
  lemma UnmarshalRereadField<T, V>(t: T, d: seq<Line>, outer: (T, Line) -> Result<T>, drops: set<string>,
                                   inner: (T, Line) -> Result<T>, get: T -> V, assigns: Line -> bool, value: Line -> V)
    requires forall t': T, l: Line :: outer(t', l) == Block(t', Reread(drops, l), inner)
    requires forall t': T, l: Line :: inner(t', l).Ok? ==>
               get(inner(t', l).value) == if assigns(l) then value(l) else get(t')
    ensures Unmarshal(t, d, outer).Ok? ==>
              get(Unmarshal(t, d, outer).value) == LastValue(ReadAll(drops, Subdirectives(d)), assigns, value, get(t))
  {
    UnmarshalIsBlock(t, d, outer);
    BlockReadAll(t, Subdirectives(d), outer, drops, inner);
    BlockField(t, ReadAll(drops, Subdirectives(d)), inner, get, assigns, value);
  }
}
