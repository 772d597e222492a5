/**
  Path segments: `str::split('.')` on a lookup key, and its inverse, joining
  segments with dots.
 */
module Segments {

  predicate DotFree(s: string) {
    '.' !in s
  }

  predicate AllDotFree(segs: seq<string>) {
    forall i :: 0 <= i < |segs| ==> DotFree(segs[i])
  }

  /** Segments joined with `.` between neighbours. */
  function Join(segs: seq<string>): string
    requires |segs| >= 1
    decreases |segs|
  {
    if |segs| == 1 then segs[0] else segs[0] + "." + Join(segs[1..])
  }

  /**
    `key.split('.')`: always at least one segment (the empty key gives one
    empty segment), empty segments kept, and joining them back gives the key.
   */
  function Split(s: string): (r: seq<string>)
    ensures |r| >= 1
    ensures AllDotFree(r)
    ensures Join(r) == s
    decreases |s|
  {
    if |s| == 0 then [""]
    else
      var rest := Split(s[1..]);
      if s[0] == '.' then
        assert Join([""] + rest) == "" + "." + Join(rest);
        [""] + rest
      else
        var head := [s[0]] + rest[0];
        assert Join([head] + rest[1..]) == [s[0]] + Join(rest) by {
          if |rest| > 1 {
            assert ([head] + rest[1..])[1..] == rest[1..];
          }
        }
        [head] + rest[1..]
  }

  lemma {:induction false} SplitDotFree(name: string)
    requires DotFree(name)
    ensures Split(name) == [name]
    decreases |name|
  {
    if |name| > 0 {
      SplitDotFree(name[1..]);
      assert [name[0]] + name[1..] == name;
    }
  }

  /** A dot-free first segment is split off exactly at the first dot. */
  lemma {:induction false} SplitAtFirstDot(name: string, rest: string)
    requires DotFree(name)
    ensures Split(name + "." + rest) == [name] + Split(rest)
    decreases |name|
  {
    var s := name + "." + rest;
    if |name| == 0 {
      assert s[1..] == rest;
    } else {
      assert s[1..] == name[1..] + "." + rest;
      SplitAtFirstDot(name[1..], rest);
      assert [name[0]] + name[1..] == name;
    }
  }

  /** Splitting undoes joining, for dot-free segments. */
  lemma {:induction false} SplitJoin(segs: seq<string>)
    requires |segs| >= 1 && AllDotFree(segs)
    ensures Split(Join(segs)) == segs
    decreases |segs|
  {
    if |segs| == 1 {
      SplitDotFree(segs[0]);
    } else {
      SplitAtFirstDot(segs[0], Join(segs[1..]));
      SplitJoin(segs[1..]);
    }
  }
}
