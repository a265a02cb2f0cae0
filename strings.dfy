/** String helpers shared by the two adapters: first occurrence of a character,
    joining segments with a separator, and splitting on a separator. */
module Strings {
  import opened Wrappers

  /** The index of the first occurrence of `c` in `s`, or `None` when `c` does not occur. */
  function IndexOf(s: string, c: char): (r: Option<nat>)
    ensures r.None? <==> c !in s
    ensures r.Some? ==> r.value < |s| && s[r.value] == c && c !in s[..r.value]
  {
    if |s| == 0 then None
    else if s[0] == c then Some(0)
    else
      match IndexOf(s[1..], c)
      case None => None
      case Some(i) =>
        assert s[..i + 1] == [s[0]] + s[1..][..i];
        Some(i + 1)
  }

  /** Where `c` does not occur in `a`, the first `c` of `a + [c] + b` is the one after `a`. */
  lemma IndexOfAfterPrefix(a: string, c: char, b: string)
    requires c !in a
    ensures IndexOf(a + [c] + b, c) == Some(|a|)
  {
    var s := a + [c] + b;
    assert s[|a|] == c;
  }

  /** The segments `segs`, with `sep` between each two neighbours. */
  function Join(segs: seq<string>, sep: char): string
  {
    if |segs| == 0 then ""
    else if |segs| == 1 then segs[0]
    else segs[0] + [sep] + Join(segs[1..], sep)
  }

  /** Joining is compatible with concatenation of the segment lists. */
  lemma {:induction false} JoinConcat(x: seq<string>, y: seq<string>, sep: char)
    requires |x| > 0 && |y| > 0
    ensures Join(x + y, sep) == Join(x, sep) + [sep] + Join(y, sep)
  {
    if |x| == 1 {
      assert (x + y)[1..] == y;
    } else {
      assert (x + y)[1..] == x[1..] + y;
      JoinConcat(x[1..], y, sep);
    }
  }

  /** `s` cut at every `sep`: the segments hold no `sep` and joining them gives `s` back. */
  function SplitOn(s: string, sep: char): (r: seq<string>)
    ensures |r| >= 1
    ensures forall i :: 0 <= i < |r| ==> sep !in r[i]
    ensures Join(r, sep) == s
    decreases |s|
  {
    if |s| == 0 then [""]
    else
      var rest := SplitOn(s[1..], sep);
      if s[0] == sep then
        assert ([""] + rest)[1..] == rest;
        [""] + rest
      else
        var r := [[s[0]] + rest[0]] + rest[1..];
        assert r[1..] == rest[1..];
        assert forall i :: 1 <= i < |r| ==> r[i] == rest[i];
        r
  }

  /** A list of at least one segment, none of which holds `sep`, is determined by its join. */
  lemma {:induction false} JoinInjective(x: seq<string>, y: seq<string>, sep: char)
    requires |x| >= 1 && |y| >= 1
    requires forall i :: 0 <= i < |x| ==> sep !in x[i]
    requires forall i :: 0 <= i < |y| ==> sep !in y[i]
    requires Join(x, sep) == Join(y, sep)
    ensures x == y
  {
    var s := Join(x, sep);
    if |x| > 1 {
      IndexOfAfterPrefix(x[0], sep, Join(x[1..], sep));
    }
    if |y| > 1 {
      IndexOfAfterPrefix(y[0], sep, Join(y[1..], sep));
    }
    if |x| > 1 && |y| > 1 {
      var k := |x[0]|;
      assert |y[0]| == k;
      assert x[0] == s[..k] == y[0];
      assert Join(x[1..], sep) == s[k + 1..] == Join(y[1..], sep);
      JoinInjective(x[1..], y[1..], sep);
      assert x == [x[0]] + x[1..];
      assert y == [y[0]] + y[1..];
    }
  }

  /** Splitting a join gives back the joined segments. */
  lemma SplitOnJoin(segs: seq<string>, sep: char)
    requires |segs| >= 1
    requires forall i :: 0 <= i < |segs| ==> sep !in segs[i]
    ensures SplitOn(Join(segs, sep), sep) == segs
  {
    JoinInjective(SplitOn(Join(segs, sep), sep), segs, sep);
  }
}
