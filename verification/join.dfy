/**
 * Text built from equal-width pieces.
 *
 * The renderer builds every line of the board in the same way: it appends a
 * piece followed by a separator for every column (or row), and then removes
 * the one separator too many at the end. `Terminated` is the text that the
 * appending loop leaves behind; `Join` is the text the renderer means to
 * produce, pieces with the separator between consecutive ones only.
 */
module Joining {

  /** Where the `i`-th piece starts when every piece plus separator takes `d` characters. */
  function Offset(i: nat, d: nat): nat
  {
    if i == 0 then 0 else Offset(i - 1, d) + d
  }

  lemma {:induction false} OffsetIsProduct(i: nat, d: nat)
    ensures Offset(i, d) == i * d
  {
    if i > 0 {
      OffsetIsProduct(i - 1, d);
    }
  }

  /** The pieces in order, with `sep` between consecutive pieces and nowhere else. */
  function Join(parts: seq<seq<char>>, sep: seq<char>): seq<char>
    decreases |parts|
  {
    if |parts| == 0 then []
    else if |parts| == 1 then parts[0]
    else parts[0] + sep + Join(parts[1..], sep)
  }

  /** The pieces in order, each followed by `sep`: what a push-per-piece loop leaves. */
  function Terminated(parts: seq<seq<char>>, sep: seq<char>): seq<char>
    decreases |parts|
  {
    if |parts| == 0 then []
    else Terminated(parts[..|parts| - 1], sep) + parts[|parts| - 1] + sep
  }

  /** Every piece has width `w`. */
  predicate Uniform(parts: seq<seq<char>>, w: nat)
  {
    forall i :: 0 <= i < |parts| ==> |parts[i]| == w
  }

  /** Appending one more piece to a join adds the separator and the piece. */
  lemma {:induction false} JoinSnoc(parts: seq<seq<char>>, sep: seq<char>, q: seq<char>)
    requires |parts| >= 1
    ensures Join(parts + [q], sep) == Join(parts, sep) + sep + q
    decreases |parts|
  {
    if |parts| == 1 {
      assert parts + [q] == [parts[0], q];
      assert [parts[0], q][1..] == [q];
    } else {
      assert (parts + [q])[1..] == parts[1..] + [q];
      JoinSnoc(parts[1..], sep, q);
    }
  }

  /**
   * A push-per-piece loop leaves exactly the join plus one trailing separator,
   * so that removing the last |sep| characters gives the join. This needs at
   * least one piece: with none, nothing was pushed that could be removed.
   */
  lemma {:induction false} TerminatedIsJoinThenSep(parts: seq<seq<char>>, sep: seq<char>)
    requires |parts| >= 1
    ensures Terminated(parts, sep) == Join(parts, sep) + sep
    decreases |parts|
  {
    var init := parts[..|parts| - 1];
    var last := parts[|parts| - 1];
    if |parts| == 1 {
      assert Terminated(init, sep) == [];
    } else {
      TerminatedIsJoinThenSep(init, sep);
      assert init + [last] == parts;
      JoinSnoc(init, sep, last);
    }
  }

  /** A join of at least one piece is the first pieces, each terminated, then the last piece. */
  lemma {:induction false} JoinIsTerminatedThenLast(parts: seq<seq<char>>, sep: seq<char>)
    requires |parts| >= 1
    ensures Join(parts, sep) == Terminated(parts[..|parts| - 1], sep) + parts[|parts| - 1]
  {
    var init := parts[..|parts| - 1];
    var last := parts[|parts| - 1];
    if |parts| == 1 {
      assert Terminated(init, sep) == [];
    } else {
      TerminatedIsJoinThenSep(init, sep);
      assert init + [last] == parts;
      JoinSnoc(init, sep, last);
    }
  }

  /** The length of a join of pieces of width `w`. */
  lemma {:induction false} JoinLength(parts: seq<seq<char>>, sep: seq<char>, w: nat)
    requires |parts| >= 1 && Uniform(parts, w)
    ensures |Join(parts, sep)| == |parts| * (w + |sep|) - |sep|
    decreases |parts|
  {
    if |parts| > 1 {
      JoinLength(parts[1..], sep, w);
      assert |parts| * (w + |sep|) == (w + |sep|) + (|parts| - 1) * (w + |sep|);
    }
  }

  /** The `i`-th piece of a join of pieces of width `w` starts at `Offset(i, w + |sep|)`. */
  lemma {:induction false} JoinPartAt(parts: seq<seq<char>>, sep: seq<char>, w: nat, i: nat)
    requires i < |parts| && Uniform(parts, w)
    ensures Offset(i, w + |sep|) + w <= |Join(parts, sep)|
    ensures Join(parts, sep)[Offset(i, w + |sep|)..Offset(i, w + |sep|) + w] == parts[i]
    decreases i
  {
    var d := w + |sep|;
    if i > 0 {
      var rest := parts[1..];
      JoinPartAt(rest, sep, w, i - 1);
      assert Offset(i, d) == d + Offset(i - 1, d);
      assert Join(parts, sep) == parts[0] + sep + Join(rest, sep);
    } else if |parts| > 1 {
      assert Join(parts, sep) == parts[0] + (sep + Join(parts[1..], sep));
    }
  }

  /** The separator after the `i`-th piece of a join of pieces of width `w`. */
  lemma {:induction false} JoinSepAt(parts: seq<seq<char>>, sep: seq<char>, w: nat, i: nat)
    requires i + 1 < |parts| && Uniform(parts, w)
    ensures Offset(i, w + |sep|) + w + |sep| <= |Join(parts, sep)|
    ensures Join(parts, sep)[Offset(i, w + |sep|) + w..Offset(i, w + |sep|) + w + |sep|] == sep
    decreases i
  {
    var d := w + |sep|;
    var rest := parts[1..];
    assert Join(parts, sep) == parts[0] + sep + Join(rest, sep);
    if i > 0 {
      JoinSepAt(rest, sep, w, i - 1);
      assert Offset(i, d) == d + Offset(i - 1, d);
    }
  }
}
