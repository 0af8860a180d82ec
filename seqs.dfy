/** The two ways the window turns a list with repetitions into one without:
    `sorted(list(set(xs)))` in the catalog lookup, and the
    append-if-absent loop of the "show all formats" option, which keeps the
    order of first occurrence. */
module Seqs {

  import opened Text

  /** Every element is smaller than every later one, so none repeats. */
  ghost predicate StrictlyAscending(s: seq<string>)
  {
    forall i, j :: 0 <= i < j < |s| ==> Less(s[i], s[j])
  }

  lemma AscendingCons(h: string, t: seq<string>)
    requires StrictlyAscending(t)
    requires forall y :: y in t ==> Less(h, y)
    ensures StrictlyAscending([h] + t)
  {
    var s := [h] + t;
    forall i, j | 0 <= i < j < |s| ensures Less(s[i], s[j]) {
      if i == 0 {
        assert s[j] == t[j - 1];
      } else {
        assert s[i] == t[i - 1] && s[j] == t[j - 1];
      }
    }
  }

  /** A list each of whose elements is smaller than the next is strictly
      ascending. */
  lemma {:induction false} AscendingByNeighbours(s: seq<string>)
    requires forall i :: 0 <= i < |s| - 1 ==> Less(s[i], s[i + 1])
    ensures StrictlyAscending(s)
  {
    if |s| > 1 {
      var t := s[1..];
      assert forall i :: 0 <= i < |t| - 1 ==> Less(t[i], t[i + 1]) by {
        forall i | 0 <= i < |t| - 1 ensures Less(t[i], t[i + 1]) {
          assert t[i] == s[i + 1] && t[i + 1] == s[i + 2];
        }
      }
      AscendingByNeighbours(t);
      forall y | y in t ensures Less(s[0], y) {
        var k :| 0 <= k < |t| && t[k] == y;
        if k > 0 {
          assert t[0] == s[1] && t[k] == s[k + 1];
          assert Less(t[0], t[k]);
          LessTransitive(s[0], t[0], y);
        }
      }
      AscendingCons(s[0], t);
      assert s == [s[0]] + t;
    }
  }

  /** Puts `x` into its place in an ascending list, unless it is already
      there. */
  function Insert(x: string, s: seq<string>): (r: seq<string>)
    requires StrictlyAscending(s)
    ensures StrictlyAscending(r)
    ensures forall y :: y in r <==> y == x || y in s
  {
    if s == [] then [x]
    else if x == s[0] then s
    else if Less(x, s[0]) then
      assert forall y :: y in s ==> Less(x, y) by {
        forall y | y in s ensures Less(x, y) {
          if y != s[0] {
            var k :| 0 <= k < |s| && s[k] == y;
            LessTransitive(x, s[0], y);
          }
        }
      }
      AscendingCons(x, s);
      [x] + s
    else
      var t := Insert(x, s[1..]);
      assert forall y :: y in t ==> Less(s[0], y) by {
        forall y | y in t ensures Less(s[0], y) {
          if y == x {
            LessTotal(x, s[0]);
          } else {
            var k :| 1 <= k < |s| && s[k] == y;
          }
        }
      }
      AscendingCons(s[0], t);
      assert s == [s[0]] + s[1..];
      [s[0]] + t
  }

  /** `sorted(list(set(xs)))`: the elements of `xs`, each once, ascending. */
  function SortedDistinct(xs: seq<string>): (r: seq<string>)
    ensures StrictlyAscending(r)
    ensures forall y :: y in r <==> y in xs
  {
    if xs == [] then []
    else
      assert xs == [xs[0]] + xs[1..];
      Insert(xs[0], SortedDistinct(xs[1..]))
  }

  /** A set has only one ascending enumeration, so the result of
      `SortedDistinct` does not depend on how it is computed. */
  lemma {:induction false} AscendingUnique(a: seq<string>, b: seq<string>)
    requires StrictlyAscending(a) && StrictlyAscending(b)
    requires forall y :: y in a <==> y in b
    ensures a == b
  {
    assert a != [] ==> a[0] in a;
    assert b != [] ==> b[0] in b;
    if a != [] && b != [] {
      assert a[0] in a && b[0] in b;
      if a[0] != b[0] {
        var i :| 0 <= i < |b| && b[i] == a[0];
        var j :| 0 <= j < |a| && a[j] == b[0];
        assert Less(b[0], a[0]);
        assert Less(a[0], b[0]);
        LessAsymmetric(a[0], b[0]);
      }
      assert a[0] == b[0];
      assert a == [a[0]] + a[1..] && b == [b[0]] + b[1..];
      forall y ensures y in a[1..] <==> y in b[1..] {
        if y in a[1..] {
          var i :| 1 <= i < |a| && a[i] == y;
          if y == a[0] {
            assert Less(a[0], a[i]);
            LessIrreflexive(y);
          }
          assert y in b && y != b[0];
        }
        if y in b[1..] {
          var i :| 1 <= i < |b| && b[i] == y;
          if y == b[0] {
            assert Less(b[0], b[i]);
            LessIrreflexive(y);
          }
          assert y in a && y != a[0];
        }
      }
      AscendingUnique(a[1..], b[1..]);
    }
  }

  /** The position of the first `x` in `xs`, or `|xs|` when there is none. */
  function FirstIndex(xs: seq<string>, x: string): (k: nat)
    ensures k <= |xs| && x !in xs[..k]
    ensures k < |xs| <==> x in xs
    ensures k < |xs| ==> xs[k] == x
  {
    if xs == [] then 0
    else if xs[0] == x then 0
    else
      assert xs[..1 + FirstIndex(xs[1..], x)] == [xs[0]] + xs[1..][..FirstIndex(xs[1..], x)];
      1 + FirstIndex(xs[1..], x)
  }

  /** Appending to a list does not move the first occurrence of anything
      already in it. */
  lemma FirstIndexAppend(xs: seq<string>, x: string, y: string)
    requires y in xs
    ensures FirstIndex(xs + [x], y) == FirstIndex(xs, y)
  {
    var k := FirstIndex(xs, y);
    var k' := FirstIndex(xs + [x], y);
    assert (xs + [x])[k] == y;
    assert (xs + [x])[..k] == xs[..k];
  }

  /** `r` lists every element of `xs` exactly once, in the order in which
      each first occurs in `xs`. */
  ghost predicate FirstOccurrenceOrder(r: seq<string>, xs: seq<string>)
  {
    (forall y :: y in r <==> y in xs) &&
    (forall i, j :: 0 <= i < j < |r| ==> FirstIndex(xs, r[i]) < FirstIndex(xs, r[j]))
  }

  /** Each element of `xs` once, kept where it first occurs. */
  function Distinct(xs: seq<string>): (r: seq<string>)
    ensures FirstOccurrenceOrder(r, xs)
    ensures forall i, j :: 0 <= i < j < |r| ==> r[i] != r[j]
  {
    if xs == [] then []
    else
      var p, x := xs[..|xs| - 1], xs[|xs| - 1];
      var d := Distinct(p);
      assert xs == p + [x];
      forall y | y in p ensures FirstIndex(xs, y) == FirstIndex(p, y) {
        FirstIndexAppend(p, x, y);
      }
      if x in d then d
      else
        assert FirstIndex(xs, x) == |p| by {
          assert xs[|p|] == x;
          assert x !in xs[..|p|];
        }
        d + [x]
  }

  /** Appending one element extends the distinct list by it, unless it was
      already there. */
  lemma DistinctSnoc(xs: seq<string>, x: string)
    ensures Distinct(xs + [x]) == if x in Distinct(xs) then Distinct(xs) else Distinct(xs) + [x]
  {
    assert (xs + [x])[..|xs|] == xs;
  }

  /** The concatenation of `rows`, in order. */
  function Flatten(rows: seq<seq<string>>): (r: seq<string>)
    ensures forall y :: y in r <==> exists i :: 0 <= i < |rows| && y in rows[i]
  {
    if rows == [] then []
    else
      var p := rows[..|rows| - 1];
      assert forall i :: 0 <= i < |p| ==> p[i] == rows[i];
      Flatten(p) + rows[|rows| - 1]
  }

  lemma FlattenSnoc(rows: seq<seq<string>>, i: nat)
    requires i < |rows|
    ensures Flatten(rows[..i + 1]) == Flatten(rows[..i]) + rows[i]
  {
    assert rows[..i + 1][..i] == rows[..i];
  }

  lemma PrefixSnoc(done: seq<string>, row: seq<string>, j: nat)
    requires j < |row|
    ensures done + row[..j + 1] == (done + row[..j]) + [row[j]]
  {
    assert row[..j + 1] == row[..j] + [row[j]];
  }

  /** One step of the inner loop: appending `row[j]` when it is new extends
      the distinct list of what was seen by it. */
  lemma CollectStep(done: seq<string>, row: seq<string>, j: nat, buff: seq<string>)
    requires j < |row| && buff == Distinct(done + row[..j])
    ensures (if row[j] in buff then buff else buff + [row[j]]) == Distinct(done + row[..j + 1])
  {
    DistinctSnoc(done + row[..j], row[j]);
    PrefixSnoc(done, row, j);
  }

  /** The inner loop of the "show all formats" option: appends each value
      of `row` not yet in `buff`, where `buff` is what the earlier rows
      `done` gave. */
  method CollectRow(ghost done: seq<string>, row: seq<string>, buff0: seq<string>) returns (buff: seq<string>)
    requires buff0 == Distinct(done)
    ensures buff == Distinct(done + row)
  {
    buff := buff0;
    var j := 0;
    assert done + row[..0] == done;
    while j < |row|
      invariant 0 <= j <= |row|
      invariant buff == Distinct(done + row[..j])
    {
      var x := row[j];
      CollectStep(done, row, j, buff);
      if x !in buff {
        buff := buff + [x];
      }
      j := j + 1;
    }
    assert row[..j] == row;
  }

  /** The nested loop of the "show all formats" option: every value of every
      row, appended unless already collected. */
  method CollectValues(rows: seq<seq<string>>) returns (buff: seq<string>)
    ensures buff == Distinct(Flatten(rows))
  {
    buff := [];
    var i := 0;
    while i < |rows|
      invariant 0 <= i <= |rows|
      invariant buff == Distinct(Flatten(rows[..i]))
    {
      buff := CollectRow(Flatten(rows[..i]), rows[i], buff);
      FlattenSnoc(rows, i);
      i := i + 1;
    }
    assert rows[..i] == rows;
  }
}
