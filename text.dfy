/** Small string helpers used by the renderers and the request builders. */
module Text {

  /** The decimal digit of `d`, as `operator<<` on a small `int` writes it. */
  function Digit(d: nat): (c: char)
    requires d < 10
    ensures '0' <= c <= '9' && c as int - '0' as int == d
  {
    ('0' as int + d) as char
  }

  /** `parts` separated by `sep`, as a loop that writes `sep` before every part but the first. */
  function Join(parts: seq<string>, sep: string): string
  {
    if |parts| == 0 then ""
    else if |parts| == 1 then parts[0]
    else parts[0] + sep + Join(parts[1..], sep)
  }

  lemma {:induction false} JoinSnoc(parts: seq<string>, x: string, sep: string)
    ensures Join(parts + [x], sep) == if parts == [] then x else Join(parts, sep) + sep + x
  {
    if |parts| <= 1 {
    } else {
      assert (parts + [x])[1..] == parts[1..] + [x];
      JoinSnoc(parts[1..], x, sep);
    }
  }

  /** The concatenation of `parts`. */
  function Concat(parts: seq<string>): string
  {
    if parts == [] then "" else parts[0] + Concat(parts[1..])
  }

  lemma {:induction false} ConcatSnoc(parts: seq<string>, x: string)
    ensures Concat(parts + [x]) == Concat(parts) + x
  {
    if parts == [] {
      assert [x][1..] == [];
    } else {
      assert (parts + [x])[1..] == parts[1..] + [x];
      ConcatSnoc(parts[1..], x);
    }
  }

  /** The concatenation is the parts before `i`, part `i`, then the parts after it. */
  lemma {:induction false} ConcatSplit(parts: seq<string>, i: nat)
    requires i < |parts|
    ensures Concat(parts) == Concat(parts[..i]) + parts[i] + Concat(parts[i + 1..])
  {
    if i == 0 {
      assert parts[..0] == [] && parts[1..] == parts[0 + 1..];
    } else {
      var rest := parts[1..];
      ConcatSplit(rest, i - 1);
      assert rest[..i - 1] == parts[1..i] && rest[i - 1] == parts[i] && rest[i..] == parts[i + 1..];
      assert parts[..i][1..] == parts[1..i] && parts[..i][0] == parts[0];
    }
  }

  /** `f` applied to each element, in order. */
  function Map<T>(xs: seq<T>, f: T -> string): (ys: seq<string>)
    ensures |ys| == |xs|
  {
    seq(|xs|, k requires 0 <= k < |xs| => f(xs[k]))
  }

  /** The text made for element `i` comes after the text of the elements before it and before those after it. */
  lemma MapSplit<T>(xs: seq<T>, f: T -> string, i: nat)
    requires i < |xs|
    ensures Concat(Map(xs, f)) == Concat(Map(xs[..i], f)) + f(xs[i]) + Concat(Map(xs[i + 1..], f))
  {
    var ys := Map(xs, f);
    ConcatSplit(ys, i);
    assert ys[..i] == Map(xs[..i], f);
    assert ys[i + 1..] == Map(xs[i + 1..], f);
  }

  lemma MapSnoc<T>(xs: seq<T>, x: T, f: T -> string)
    ensures Concat(Map(xs + [x], f)) == Concat(Map(xs, f)) + f(x)
  {
    assert Map(xs + [x], f) == Map(xs, f) + [f(x)];
    ConcatSnoc(Map(xs, f), f(x));
  }
}
