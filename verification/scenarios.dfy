/** Concrete sessions showing how lookups and substitutions come out. */
module Scenarios {
  import opened Wrappers
  import opened SerdeJson
  import opened Decimal
  import opened Segments
  import opened Resolver
  import opened Config
  import opened Template

  function User(): Value {
    Obj(map["name" := Str("alice"), "tags" := Arr([Str("x"), Str("y")])])
  }

  function Mixed(): Value {
    Obj(map["0" := Str("a"), "arr" := Arr([Num(10), Num(20)])])
  }

  lemma JoinThree(a: string, b: string, d: string)
    ensures Join([a, b, d]) == a + "." + b + "." + d
  {
    assert [a, b, d][1..] == [b, d];
    assert [b, d][1..] == [d];
    assert Join([b, d]) == b + "." + d;
    assert Join([a, b, d]) == a + "." + (b + "." + d);
  }

  lemma ParseOneDigit(n: nat)
    requires n < 10
    ensures ParseUsize([DigitChar(n)]) == Some(n)
  {
    ParseRendered(n);
  }

  /** Walking a single segment is one step. */
  lemma WalkOne(v: Value, seg: string)
    ensures Walk(Some(v), [seg]) == Step(v, seg)
  {
    assert [seg][1..] == [];
  }

  /** Walking two segments is two steps. */
  lemma WalkTwo(v: Value, a: string, b: string, mid: Value)
    requires Step(v, a) == Some(mid)
    ensures Walk(Some(v), [a, b]) == Step(mid, b)
  {
    assert [a, b][1..] == [b];
    WalkOne(mid, b);
  }

  lemma UserTagsStep()
    ensures Walk(Some(User()), ["tags", "1"]) == Some(Str("y"))
  {
    var tags := Arr([Str("x"), Str("y")]);
    assert "tags" in User().fields && User().fields["tags"] == tags;
    ParseOneDigit(1);
    assert Step(tags, "1") == Some(Str("y"));
    WalkTwo(User(), "tags", "1", tags);
  }

  /** `user.tags.1` reaches the second tag. */
  lemma NestedIndex(c0: GlobalConfig)
    ensures Lookup(Config.Set(c0, "user", User()), "user.tags.1") == Some(Str("y"))
  {
    var c := Config.Set(c0, "user", User());
    LookupPath(c, "user", ["tags", "1"]);
    JoinThree("user", "tags", "1");
    assert "user" + "." + "tags" + "." + "1" == "user.tags.1";
    UserTagsStep();
  }

  lemma MixedSteps()
    ensures Walk(Some(Mixed()), ["arr", "0"]) == Some(Num(10))
    ensures Walk(Some(Mixed()), ["0"]) == Some(Str("a"))
  {
    var arr := Arr([Num(10), Num(20)]);
    assert "arr" in Mixed().fields && Mixed().fields["arr"] == arr;
    assert "0" in Mixed().fields && Mixed().fields["0"] == Str("a");
    ParseOneDigit(0);
    assert Step(arr, "0") == Some(Num(10));
    WalkTwo(Mixed(), "arr", "0", arr);
    WalkOne(Mixed(), "0");
  }

  /**
    Index before key: below `x`, the segment `0` is a position in the array
    `arr` but a key of the object `x` itself.
   */
  lemma IndexKeyPrecedence(c0: GlobalConfig)
    ensures Lookup(Config.Set(c0, "x", Mixed()), "x.arr.0") == Some(Num(10))
    ensures Lookup(Config.Set(c0, "x", Mixed()), "x.0") == Some(Str("a"))
  {
    var c := Config.Set(c0, "x", Mixed());
    MixedSteps();
    LookupPath(c, "x", ["arr", "0"]);
    JoinThree("x", "arr", "0");
    assert "x" + "." + "arr" + "." + "0" == "x.arr.0";
    LookupPath(c, "x", ["0"]);
    assert ["x", "0"][1..] == ["0"];
    assert Join(["x", "0"]) == "x.0";
  }

  /**
    A leading zero or plus is the same position on an array but a different
    key on an object; a non-numeric segment never indexes.
   */
  lemma NonCanonicalSegments()
    ensures Step(Arr([Num(10), Num(20)]), "01") == Some(Num(20))
    ensures Step(Arr([Num(10), Num(20)]), "+1") == Some(Num(20))
    ensures Step(Arr([Num(10), Num(20)]), "a") == None
    ensures Step(Obj(map["01" := Num(1), "1" := Num(2)]), "01") == Some(Num(1))
  {
    NonCanonicalIndexText(1);
    assert NatToString(1) == "1";
    assert "0" + "1" == "01" && "+" + "1" == "+1";
    assert ParseUsize("a") == None;
  }

  /** Empty segments are kept: `a..b` and `a.` look up the key `""` below `a`. */
  lemma EmptySegments()
    ensures Split("a..b") == ["a", "", "b"]
    ensures Split("a.") == ["a", ""]
    ensures Split("") == [""]
  {
    SplitAtFirstDot("a", ".b");
    SplitAtFirstDot("", "b");
    SplitDotFree("b");
    assert "a" + "." + ".b" == "a..b";
    assert "" + "." + "b" == ".b";
    SplitAtFirstDot("a", "");
    SplitDotFree("");
    assert "a" + "." + "" == "a.";
  }

  /** A name containing a dot can be set but not read back: `get` splits it. */
  lemma DottedNameUnreachable(c0: GlobalConfig)
    requires "a" !in c0.envVariable
    ensures Lookup(Config.Set(c0, "a.b", Num(1)), "a.b") == None
  {
    var c := Config.Set(c0, "a.b", Num(1));
    assert "a" != "a.b";
    LookupMissingName(c, "a", "b");
    assert "a" + "." + "b" == "a.b";
  }

  /** A session in which `amount` holds the number 300. */
  predicate HoldsAmount(c: GlobalConfig) {
    Find(c.envVariable, "amount") == Some(Num(300))
  }

  lemma AmountReplacement(c: GlobalConfig, line: string, m: Match)
    requires HoldsAmount(c)
    requires line == "send ${amount} now" && m == Match(Span(5, 14), Some(Span(7, 13)))
    ensures Replacement(c, line, m) == "300"
  {
    assert line[7..13] == "amount";
    LookupBareName(c, "amount");
    assert NatToString(300) == NatToString(30) + "0";
    assert NatToString(30) == NatToString(3) + "0";
    assert NatToString(300) == "300";
  }

  lemma SpliceOne(line: string, m: Match, text: string)
    requires WellFormed(line, [m])
    ensures Splice(line, [m], [text], 0) == line[..m.whole.start] + text + line[m.whole.end..]
  {
    assert [m][1..] == [] && [text][1..] == [];
  }

  /** With `amount` set to 300, `send ${amount} now` becomes `send 300 now`. */
  lemma AmountPlaceholder(c: GlobalConfig, line: string, ms: seq<Match>)
    requires HoldsAmount(c)
    requires line == "send ${amount} now" && ms == [Match(Span(5, 14), Some(Span(7, 13)))]
    ensures WellFormed(line, ms)
    ensures Splice(line, ms, Replacements(c, line, ms), 0) == "send 300 now"
  {
    var m := ms[0];
    assert |line| == 18;
    assert WellFormed(line, [m]);
    AmountReplacement(c, line, m);
    var reps := Replacements(c, line, ms);
    assert reps[0] == Replacement(c, line, m);
    assert reps == ["300"];
    SpliceOne(line, m, "300");
    assert line[..5] == "send " && line[14..] == " now";
  }

  /** `set amount 300` makes a session that holds the amount. */
  lemma SetAmount(path: string)
    ensures HoldsAmount(Config.Set(New(None, None, path), "amount", Num(300)))
  {
  }

  /** An unknown path erases its placeholder instead of failing. */
  lemma MissingPlaceholder(c: GlobalConfig, line: string, ms: seq<Match>)
    requires "missing" !in c.envVariable
    requires line == "x${missing.path}y" && ms == [Match(Span(1, 16), Some(Span(3, 15)))]
    ensures WellFormed(line, ms)
    ensures Splice(line, ms, Replacements(c, line, ms), 0) == "xy"
  {
    var m := ms[0];
    assert |line| == 17;
    assert WellFormed(line, [m]);
    assert line[3..15] == "missing" + "." + "path";
    LookupMissingName(c, "missing", "path");
    var reps := Replacements(c, line, ms);
    assert reps[0] == Replacement(c, line, m) == "";
    assert reps == [""];
    SpliceOne(line, m, "");
    assert line[..1] == "x" && line[16..] == "y";
  }
}
