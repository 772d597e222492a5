/**
  The dotted-path descent of `GlobalConfig::get`: after the first segment has
  named a variable, every further segment is one `Step` into the current
  value, and the first step that yields nothing ends the walk with nothing.
 */
module Resolver {
  import opened Wrappers
  import opened SerdeJson
  import opened Decimal

  /**
    One segment: when it parses as a `usize`, positional access is tried
    first; when that parse fails or positional access yields nothing, the
    segment's literal text is looked up as an object key.
   */
  function Step(v: Value, seg: string): (r: Option<Value>)
    ensures v.Arr? ==> (r.Some? <==> ParseUsize(seg).Some? && ParseUsize(seg).value < |v.items|)
    ensures v.Arr? && r.Some? ==> r.value == v.items[ParseUsize(seg).value]
    ensures v.Obj? ==> r == (if seg in v.fields then Some(v.fields[seg]) else None)
    ensures IsScalar(v) ==> r == None
  {
    match ParseUsize(seg)
    case Some(index) =>
      (match AtIndex(v, index)
       case None => AtKey(v, seg)
       case Some(x) => Some(x))
    case None => AtKey(v, seg)
  }

  /**
    The `try_fold` over the remaining segments: a present value descends by
    one `Step`; an absent one stays absent whatever segments follow.
   */
  function Walk(cur: Option<Value>, segs: seq<string>): (r: Option<Value>)
    ensures |segs| == 0 ==> r == cur
    ensures cur.None? ==> r.None?
    decreases |segs|
  {
    if |segs| == 0 then cur
    else
      match cur
      case None => None
      case Some(v) => Walk(Step(v, segs[0]), segs[1..])
  }

  /** Walking a concatenation is walking the first part, then the second from where it ended. */
  lemma {:induction false} WalkAppend(cur: Option<Value>, a: seq<string>, b: seq<string>)
    ensures Walk(cur, a + b) == Walk(Walk(cur, a), b)
    decreases |a|
  {
    if |a| == 0 {
      assert a + b == b;
    } else if cur.None? {
      WalkFromNothing(b);
    } else {
      assert (a + b)[1..] == a[1..] + b;
      WalkAppend(Step(cur.value, a[0]), a[1..], b);
    }
  }

  /** Nothing to start from gives nothing, whatever the segments. */
  lemma WalkFromNothing(segs: seq<string>)
    ensures Walk(None, segs) == None
  {
  }

  /** Failure is absorbing: once a prefix of the segments resolves to nothing, so does every extension. */
  lemma FailureIsAbsorbing(cur: Option<Value>, a: seq<string>, b: seq<string>)
    requires Walk(cur, a) == None
    ensures Walk(cur, a + b) == None
  {
    WalkAppend(cur, a, b);
    WalkFromNothing(b);
  }

  /** Success needs every prefix to succeed: a resolved path passed through a value at each step. */
  lemma {:induction false} ResolvedPrefix(cur: Option<Value>, segs: seq<string>, k: nat)
    requires k <= |segs|
    requires Walk(cur, segs).Some?
    ensures Walk(cur, segs[..k]).Some?
  {
    assert segs == segs[..k] + segs[k..];
    if Walk(cur, segs[..k]).None? {
      FailureIsAbsorbing(cur, segs[..k], segs[k..]);
    }
  }
}
