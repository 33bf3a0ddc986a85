/** The Redis key builder `rk`, which both key modules of the application
    define in the same way: the parts joined, in order, with ":". */
module RedisKeys {

  const Separator: char := ':'

  /** `rk(...parts)`, that is `parts.join(":")`: the key starts with the first
      part, ends with the last one, and a ":" follows the first part when there
      is more than one. */
  function Rk(parts: seq<string>): (key: string)
    ensures |parts| > 0 ==> |parts[0]| <= |key| && key[..|parts[0]|] == parts[0]
    ensures |parts| > 1 ==> |parts[0]| < |key| && key[|parts[0]|] == Separator
    decreases |parts|
  {
    if |parts| == 0 then ""
    else if |parts| == 1 then parts[0]
    else parts[0] + [Separator] + Rk(parts[1..])
  }

  /** Cuts `s` at every ":" (`s.split(":")`); the reference against which
      `Rk` is shown to lose nothing. */
  function Split(s: string): (parts: seq<string>)
    ensures |parts| > 0
    decreases |s|
  {
    if |s| == 0 then [""]
    else if s[0] == Separator then [""] + Split(s[1..])
    else
      var rest := Split(s[1..]);
      [[s[0]] + rest[0]] + rest[1..]
  }

  predicate NoSeparator(part: string)
  {
    Separator !in part
  }

  lemma RkOfNothing()
    ensures Rk([]) == ""
  {
  }

  lemma RkOfOne(a: string)
    ensures Rk([a]) == a
  {
  }

  lemma RkOfTwo(a: string, b: string)
    ensures Rk([a, b]) == a + [Separator] + b
  {
    assert [a, b][1..] == [b];
  }

  /** Joining two non-empty lists is joining their joins. */
  lemma {:induction false} RkAppend(xs: seq<string>, ys: seq<string>)
    requires |xs| > 0 && |ys| > 0
    ensures Rk(xs + ys) == Rk(xs) + [Separator] + Rk(ys)
    decreases |xs|
  {
    if |xs| == 1 {
      assert xs + ys == [xs[0]] + ys;
      assert (xs + ys)[1..] == ys;
    } else {
      assert (xs + ys)[1..] == xs[1..] + ys;
      RkAppend(xs[1..], ys);
    }
  }

  /** Nesting flattens: `rk(rk(...xs), ...ys) == rk(...xs, ...ys)`; this is how
      the key constants are built from one another. */
  lemma {:induction false} RkNested(xs: seq<string>, ys: seq<string>)
    requires |xs| > 0
    ensures Rk([Rk(xs)] + ys) == Rk(xs + ys)
  {
    if |ys| == 0 {
      assert xs + ys == xs;
    } else {
      RkAppend([Rk(xs)], ys);
      RkAppend(xs, ys);
    }
  }

  lemma {:induction false} SplitWithoutSeparator(a: string)
    requires NoSeparator(a)
    ensures Split(a) == [a]
    decreases |a|
  {
    if |a| > 0 {
      SplitWithoutSeparator(a[1..]);
      assert [a[0]] + a[1..] == a;
    }
  }

  lemma {:induction false} SplitAtFirstSeparator(a: string, b: string)
    requires NoSeparator(a)
    ensures Split(a + [Separator] + b) == [a] + Split(b)
    decreases |a|
  {
    var s := a + [Separator] + b;
    if |a| == 0 {
      assert s[1..] == b;
    } else {
      assert s[1..] == a[1..] + [Separator] + b;
      SplitAtFirstSeparator(a[1..], b);
      assert [a[0]] + a[1..] == a;
    }
  }

  /** Splitting a key on ":" gives back the parts it was built from, as long as
      there is at least one part and no part holds a ":". */
  lemma {:induction false} SplitRk(parts: seq<string>)
    requires |parts| > 0
    requires forall i :: 0 <= i < |parts| ==> NoSeparator(parts[i])
    ensures Split(Rk(parts)) == parts
    decreases |parts|
  {
    if |parts| == 1 {
      SplitWithoutSeparator(parts[0]);
    } else {
      SplitAtFirstSeparator(parts[0], Rk(parts[1..]));
      SplitRk(parts[1..]);
      assert [parts[0]] + parts[1..] == parts;
    }
  }

  /** Two keys built from separator-free parts are equal only if the parts are. */
  lemma RkInjective(xs: seq<string>, ys: seq<string>)
    requires |xs| > 0 && |ys| > 0
    requires forall i :: 0 <= i < |xs| ==> NoSeparator(xs[i])
    requires forall i :: 0 <= i < |ys| ==> NoSeparator(ys[i])
    ensures Rk(xs) == Rk(ys) <==> xs == ys
  {
    SplitRk(xs);
    SplitRk(ys);
  }
}
