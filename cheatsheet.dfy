/**
 * The run-time routines of cheatsheet.ts: the argument-extending method
 * decorator, `MeanValue.getMeanValue`, and `ModeValue` with its tally,
 * its append-only `values` field, its static call counter and the
 * singleton guard that `classDecoratorDynamic` adds to its constructor.
 */
module Cheatsheet {
  import opened Wrappers
  import opened JsValues

  // ---------------------------------------------------------------------
  // methodDecorator(...args)
  // ---------------------------------------------------------------------

  /**
   * `[...arguments, ...args]`: the arguments the wrapped method receives
   * are the caller's, followed by the decorator factory's.
   */
  function ExtendArguments<A>(arguments: seq<A>, factoryArgs: seq<A>): (values: seq<A>)
    ensures |values| == |arguments| + |factoryArgs|
    ensures values[..|arguments|] == arguments
    ensures values[|arguments|..] == factoryArgs
  {
    arguments + factoryArgs
  }

  /** The factory arguments of `@methodDecorator(14,17,19)` on `getMeanValue`. */
  const MeanFactoryArgs: seq<JsValue> := [Number(14.0), Number(17.0), Number(19.0)]

  // ---------------------------------------------------------------------
  // Mean
  // ---------------------------------------------------------------------

  /** The entries whose `typeof` is "number", in their original order. */
  function Numbers(args: seq<JsValue>): (ns: seq<real>)
    ensures |ns| <= |args|
    decreases |args|
  {
    if args == [] then []
    else (if args[0].Number? then [args[0].n] else []) + Numbers(args[1..])
  }

  /** Exact total of a sequence of numbers. */
  function Sum(xs: seq<real>): real
    decreases |xs|
  {
    if xs == [] then 0.0 else xs[0] + Sum(xs[1..])
  }

  /** Specification of `getMeanValue`: undefined without numeric entries, else their average. */
  function Mean(args: seq<JsValue>): Option<real>
  {
    var ns := Numbers(args);
    if |ns| == 0 then None else Some(Sum(ns) / |ns| as real)
  }

  /** Numeric entries of a concatenation are those of each part, in order. */
  lemma {:induction false} NumbersAppend(a: seq<JsValue>, b: seq<JsValue>)
    ensures Numbers(a + b) == Numbers(a) + Numbers(b)
    decreases |a|
  {
    if a == [] {
      assert a + b == b;
    } else {
      var head := if a[0].Number? then [a[0].n] else [];
      assert (a + b)[0] == a[0];
      assert (a + b)[1..] == a[1..] + b;
      NumbersAppend(a[1..], b);
      assert Numbers(a + b) == head + (Numbers(a[1..]) + Numbers(b));
      assert head + (Numbers(a[1..]) + Numbers(b)) == (head + Numbers(a[1..])) + Numbers(b);
    }
  }

  /** The total of a concatenation is the sum of the totals. */
  lemma {:induction false} SumAppend(xs: seq<real>, ys: seq<real>)
    ensures Sum(xs + ys) == Sum(xs) + Sum(ys)
    decreases |xs|
  {
    if xs == [] {
      assert xs + ys == ys;
    } else {
      assert (xs + ys)[1..] == xs[1..] + ys;
      SumAppend(xs[1..], ys);
    }
  }

  /** A number is among the counted entries exactly when some argument is that number. */
  lemma {:induction false} NumbersMembership(args: seq<JsValue>, x: real)
    ensures x in Numbers(args) <==> Number(x) in args
    decreases |args|
  {
    if args != [] {
      NumbersMembership(args[1..], x);
      assert args == [args[0]] + args[1..];
    }
  }

  /** `getMeanValue` is undefined exactly when no entry is a number: it never divides by zero. */
  lemma {:induction false} MeanUndefinedIff(args: seq<JsValue>)
    ensures Mean(args).None? <==> forall i :: 0 <= i < |args| ==> !args[i].Number?
  {
    if Mean(args).None? {
      forall i | 0 <= i < |args|
        ensures !args[i].Number?
      {
        if args[i].Number? {
          NumbersMembership(args, args[i].n);
        }
      }
    } else {
      var x := Numbers(args)[0];
      NumbersMembership(args, x);
    }
  }

  /** `getMeanValue(1,2,3,4,5,6,10)` without the decorator is 31/7. */
  lemma MeanOfDemo()
    ensures Mean([Number(1.0), Number(2.0), Number(3.0), Number(4.0), Number(5.0), Number(6.0), Number(10.0)])
      == Some(31.0 / 7.0)
  {
  }

  /** Strings are skipped: the mean of "a", 2, "b", 4 is 3. */
  lemma MeanSkipsText()
    ensures Mean([Text("a"), Number(2.0), Text("b"), Number(4.0)]) == Some(3.0)
  {
    assert Numbers([Text("a"), Number(2.0), Text("b"), Number(4.0)]) == [2.0, 4.0];
  }

  /**
   * Through `@methodDecorator(14,17,19)` the mean is never undefined: the
   * three factory numbers always join the caller's numeric entries.
   */
  lemma DecoratedMeanAlwaysDefined(arguments: seq<JsValue>)
    ensures var ns := Numbers(arguments);
      Mean(ExtendArguments(arguments, MeanFactoryArgs)) == Some((Sum(ns) + 50.0) / (|ns| + 3) as real)
  {
    NumbersAppend(arguments, MeanFactoryArgs);
    assert Numbers(MeanFactoryArgs) == [14.0, 17.0, 19.0];
    SumAppend(Numbers(arguments), [14.0, 17.0, 19.0]);
  }

  /** The decorated demo call averages ten values: (31 + 50) / 10. */
  lemma DecoratedMeanOfDemo()
    ensures Mean(ExtendArguments([Number(1.0), Number(2.0), Number(3.0), Number(4.0), Number(5.0), Number(6.0), Number(10.0)],
                                 MeanFactoryArgs)) == Some(81.0 / 10.0)
  {
    var demo := [Number(1.0), Number(2.0), Number(3.0), Number(4.0), Number(5.0), Number(6.0), Number(10.0)];
    DecoratedMeanAlwaysDefined(demo);
    assert Numbers(demo) == [1.0, 2.0, 3.0, 4.0, 5.0, 6.0, 10.0];
    MeanOfDemo();
  }

  class MeanValue {

    constructor ()
    {
    }

    /** The body of `getMeanValue`: a reduce that sums numeric entries and counts them. */
    method GetMeanValue(args: seq<JsValue>) returns (mean: Option<real>)
      ensures mean == Mean(args)
    {
      var count := 0;
      var sum := 0.0;
      var i := 0;
      while i < |args|
        invariant 0 <= i <= |args|
        invariant count == |Numbers(args[..i])|
        invariant sum == Sum(Numbers(args[..i]))
      {
        assert args[..i + 1] == args[..i] + [args[i]];
        NumbersAppend(args[..i], [args[i]]);
        SumAppend(Numbers(args[..i]), Numbers([args[i]]));
        if args[i].Number? {
          sum := sum + args[i].n;
          count := count + 1;
        }
        i := i + 1;
      }
      assert args[..i] == args;
      mean := if count != 0 then Some(sum / count as real) else None;
    }

    /**
     * `getMeanValue` as callers see it through `@methodDecorator(14,17,19)`:
     * the body runs on the extended arguments, its result is passed back
     * unchanged, and the logged count is the length of the extended list.
     */
    method DecoratedGetMeanValue(arguments: seq<JsValue>) returns (result: Option<real>, reported: nat)
      ensures result == Mean(arguments + MeanFactoryArgs)
      ensures result.Some?
      ensures reported == |arguments| + 3
    {
      var values := ExtendArguments(arguments, MeanFactoryArgs);
      result := GetMeanValue(values);
      reported := |values|;
      DecoratedMeanAlwaysDefined(arguments);
    }
  }

  // ---------------------------------------------------------------------
  // Mode
  // ---------------------------------------------------------------------

  /** An argument of `getModeValue`: a number (integral here) or a string. */
  datatype ModeArg = Num(i: int) | Str(s: string)

  function DigitChar(d: int): char
    requires 0 <= d < 10
  {
    "0123456789"[d]
  }

  /** Decimal digits of a natural number, most significant first. */
  function Digits(n: nat): (s: string)
    ensures |s| >= 1
    ensures forall k :: 0 <= k < |s| ==> '0' <= s[k] <= '9'
    decreases n
  {
    if n < 10 then [DigitChar(n)] else Digits(n / 10) + [DigitChar(n % 10)]
  }

  /** `String(i)` for an integer: decimal, with a leading '-' when negative. */
  function DecimalString(i: int): (s: string)
    ensures |s| >= 1
    ensures (s[0] == '-') <==> i < 0
  {
    if i < 0 then "-" + Digits(-i) else Digits(i)
  }

  /** Distinct digits are distinct characters. */
  lemma DigitCharInjective(a: int, b: int)
    requires 0 <= a < 10 && 0 <= b < 10
    requires DigitChar(a) == DigitChar(b)
    ensures a == b
  {
  }

  /** Distinct natural numbers have distinct digit strings. */
  lemma {:induction false} DigitsInjective(n: nat, m: nat)
    requires Digits(n) == Digits(m)
    ensures n == m
    decreases n
  {
    var s := Digits(n);
    if n < 10 && m < 10 {
      assert s[0] == DigitChar(n) && s[0] == DigitChar(m);
      DigitCharInjective(n, m);
    } else if n >= 10 && m >= 10 {
      var last := |s| - 1;
      assert s == Digits(n / 10) + [DigitChar(n % 10)];
      assert s == Digits(m / 10) + [DigitChar(m % 10)];
      assert |Digits(n / 10)| == last == |Digits(m / 10)|;
      assert s[last] == DigitChar(n % 10) && s[last] == DigitChar(m % 10);
      DigitCharInjective(n % 10, m % 10);
      assert Digits(n / 10) == s[..last] == Digits(m / 10);
      DigitsInjective(n / 10, m / 10);
    }
  }

  /**
   * Distinct integers have distinct decimal strings, so two numeric
   * arguments share a `countObject` key only when they are equal.
   */
  lemma DecimalStringInjective(i: int, j: int)
    requires DecimalString(i) == DecimalString(j)
    ensures i == j
  {
    if i < 0 && j < 0 {
      assert DecimalString(i)[1..] == Digits(-i) && DecimalString(j)[1..] == Digits(-j);
      DigitsInjective(-i, -j);
    } else if i >= 0 && j >= 0 {
      DigitsInjective(i, j);
    }
  }

  /** The property name an argument becomes when it indexes `countObject`. */
  function Key(a: ModeArg): string
  {
    match a
    case Num(i) => DecimalString(i)
    case Str(s) => s
  }

  /** How many arguments have `key` as their string form. */
  function Occurrences(args: seq<ModeArg>, key: string): (n: nat)
    ensures n <= |args|
    decreases |args|
  {
    if args == [] then 0
    else
      (if Key(args[0]) == key then 1 else 0) + Occurrences(args[1..], key)
  }

  /** A key is counted at least once exactly when some argument has it as its string form. */
  lemma {:induction false} OccurrencesPositive(args: seq<ModeArg>, key: string)
    ensures Occurrences(args, key) > 0 <==> exists j :: 0 <= j < |args| && Key(args[j]) == key
    decreases |args|
  {
    if args != [] {
      OccurrencesPositive(args[1..], key);
      assert forall j :: 1 <= j < |args| ==> args[j] == args[1..][j - 1];
    }
  }

  /** Counts over a concatenation add up. */
  lemma {:induction false} OccurrencesAppend(a: seq<ModeArg>, b: seq<ModeArg>, key: string)
    ensures Occurrences(a + b, key) == Occurrences(a, key) + Occurrences(b, key)
    decreases |a|
  {
    if a == [] {
      assert a + b == b;
    } else {
      assert (a + b)[1..] == a[1..] + b;
      OccurrencesAppend(a[1..], b, key);
    }
  }

  /** Appending one argument raises exactly its own key's count, by one. */
  lemma OccurrencesSnoc(args: seq<ModeArg>, x: ModeArg)
    ensures forall k :: Occurrences(args + [x], k) == Occurrences(args, k) + (if Key(x) == k then 1 else 0)
  {
    forall k
      ensures Occurrences(args + [x], k) == Occurrences(args, k) + (if Key(x) == k then 1 else 0)
    {
      OccurrencesAppend(args, [x], k);
    }
  }

  /** The keys of `countObject` in the order they are first inserted. */
  function DistinctKeys(args: seq<ModeArg>): (ks: seq<string>)
    ensures forall k :: k in ks <==> Occurrences(args, k) > 0
    ensures forall i, j :: 0 <= i < j < |ks| ==> ks[i] != ks[j]
    decreases |args|
  {
    if args == [] then []
    else
      var init := DistinctKeys(args[..|args| - 1]);
      var k := Key(args[|args| - 1]);
      assert args == args[..|args| - 1] + [args[|args| - 1]];
      OccurrencesSnoc(args[..|args| - 1], args[|args| - 1]);
      if k in init then init else init + [k]
  }

  /** `key` has a count no other argument's key exceeds, and occurs among the arguments. */
  ghost predicate IsMode(args: seq<ModeArg>, key: string)
  {
    (exists j :: 0 <= j < |args| && Key(args[j]) == key) &&
    forall j :: 0 <= j < |args| ==> Occurrences(args, Key(args[j])) <= Occurrences(args, key)
  }

  /** Total of the counts of `keys`. */
  function SumCounts(keys: seq<string>, args: seq<ModeArg>): nat
    decreases |keys|
  {
    if keys == [] then 0 else SumCounts(keys[..|keys| - 1], args) + Occurrences(args, keys[|keys| - 1])
  }

  /** Adding one argument with key k raises the total over distinct keys by one iff k is among them. */
  lemma {:induction false} SumCountsStep(keys: seq<string>, args: seq<ModeArg>, x: ModeArg)
    requires forall i, j :: 0 <= i < j < |keys| ==> keys[i] != keys[j]
    ensures SumCounts(keys, args + [x]) == SumCounts(keys, args) + (if Key(x) in keys then 1 else 0)
    decreases |keys|
  {
    if keys != [] {
      var init := keys[..|keys| - 1];
      SumCountsStep(init, args, x);
      OccurrencesSnoc(args, x);
      assert Key(x) in keys <==> Key(x) in init || Key(x) == keys[|keys| - 1];
      assert keys[|keys| - 1] !in init;
    }
  }

  /** The tally's counts add up to the number of arguments. */
  lemma {:induction false} TallyTotal(args: seq<ModeArg>)
    ensures SumCounts(DistinctKeys(args), args) == |args|
    decreases |args|
  {
    if args != [] {
      var init := args[..|args| - 1];
      var x := args[|args| - 1];
      assert args == init + [x];
      TallyTotal(init);
      var ks := DistinctKeys(init);
      SumCountsStep(ks, init, x);
      if Key(x) !in ks {
        OccurrencesSnoc(init, x);
        assert Occurrences(args, Key(x)) == 1;
        assert (ks + [Key(x)])[..|ks|] == ks;
        assert SumCounts(ks + [Key(x)], args) == SumCounts(ks, args) + 1;
      }
    }
  }

  /** The arguments of the demo call `getModeValue(1,2,3,3,5,5,5,8)`. */
  const ModeDemoArgs: seq<ModeArg> := [Num(1), Num(2), Num(3), Num(3), Num(5), Num(5), Num(5), Num(8)]

  /** The string forms of the demo arguments. */
  lemma ModeDemoKeys()
    ensures Key(ModeDemoArgs[0]) == "1" && Key(ModeDemoArgs[1]) == "2"
    ensures Key(ModeDemoArgs[2]) == "3" && Key(ModeDemoArgs[3]) == "3"
    ensures Key(ModeDemoArgs[4]) == "5" && Key(ModeDemoArgs[5]) == "5"
    ensures Key(ModeDemoArgs[6]) == "5" && Key(ModeDemoArgs[7]) == "8"
  {
    assert Key(Num(1)) == "1" && Key(Num(2)) == "2" && Key(Num(3)) == "3";
    assert Key(Num(5)) == "5" && Key(Num(8)) == "8";
  }

  /** The tally of the demo call: "1" once, "2" once, "3" twice, "5" three times, "8" once. */
  lemma ModeDemoTally()
    ensures Occurrences(ModeDemoArgs, "1") == 1 && Occurrences(ModeDemoArgs, "2") == 1
    ensures Occurrences(ModeDemoArgs, "3") == 2 && Occurrences(ModeDemoArgs, "5") == 3
    ensures Occurrences(ModeDemoArgs, "8") == 1
  {
    ModeDemoKeys();
    var args := ModeDemoArgs;
    assert args == args[..4] + args[4..];
    assert args[..4] == [Num(1), Num(2), Num(3), Num(3)];
    assert args[4..] == [Num(5), Num(5), Num(5), Num(8)];
    forall k {
      OccurrencesAppend(args[..4], args[4..], k);
    }
  }

  /** The demo call has "5" as its one and only mode. */
  lemma ModeOfDemo(key: string)
    ensures IsMode(ModeDemoArgs, key) <==> key == "5"
  {
    ModeDemoKeys();
    ModeDemoTally();
    var args := ModeDemoArgs;
    if IsMode(args, key) {
      var j :| 0 <= j < |args| && Key(args[j]) == key;
      assert Occurrences(args, Key(args[4])) <= Occurrences(args, key);
      assert j in {0, 1, 2, 3, 4, 5, 6, 7};
    }
    if key == "5" {
      assert forall j :: 0 <= j < |args| ==> Occurrences(args, Key(args[j])) <= 3;
    }
  }

  /** A number and its decimal string share one tally entry. */
  lemma NumberAndStringShareKey()
    ensures Occurrences([Num(5), Str("5")], "5") == 2
  {
    assert Key(Num(5)) == "5";
  }

  /**
   * The `forEach` that fills `countObject`: a present key (whose count is
   * truthy, being at least 1) is incremented, a missing one is set to 1.
   * `keys` records the insertion order of the object's properties.
   */
  method Tally(args: seq<ModeArg>) returns (keys: seq<string>, countObject: map<string, nat>)
    ensures keys == DistinctKeys(args)
    ensures forall k :: k in countObject <==> k in keys
    ensures forall k :: k in countObject ==> countObject[k] == Occurrences(args, k)
  {
    keys := [];
    countObject := map[];
    var i := 0;
    while i < |args|
      invariant 0 <= i <= |args|
      invariant keys == DistinctKeys(args[..i])
      invariant forall k :: k in countObject <==> k in keys
      invariant forall k :: k in countObject ==> countObject[k] == Occurrences(args[..i], k)
    {
      assert args[..i + 1] == args[..i] + [args[i]];
      OccurrencesSnoc(args[..i], args[i]);
      var key := Key(args[i]);
      if key in countObject {
        countObject := countObject[key := countObject[key] + 1];
      } else {
        countObject := countObject[key := 1];
        keys := keys + [key];
      }
      i := i + 1;
    }
    assert args[..i] == args;
  }

  /**
   * `Object.entries(countObject).sort((x, y) => y[1] - x[1])[0]`: with a
   * stable sort, the first entry whose count is maximal.
   */
  method MostFrequent(entries: seq<(string, nat)>) returns (top: Option<(string, nat)>)
    ensures top.None? <==> entries == []
    ensures top.Some? ==> exists b :: 0 <= b < |entries| && entries[b] == top.value &&
                            (forall i :: 0 <= i < b ==> entries[i].1 < top.value.1) &&
                            (forall i :: b <= i < |entries| ==> entries[i].1 <= top.value.1)
  {
    if entries == [] {
      return None;
    }
    var b := 0;
    var i := 1;
    while i < |entries|
      invariant 0 <= b < i <= |entries|
      invariant forall k :: 0 <= k < b ==> entries[k].1 < entries[b].1
      invariant forall k :: b <= k < i ==> entries[k].1 <= entries[b].1
    {
      if entries[i].1 > entries[b].1 {
        b := i;
      }
      i := i + 1;
    }
    top := Some(entries[b]);
  }

  /** Class-level state of `ModeValue`: the static `count` and the singleton slot `_instance`. */
  class ModeValueClass {
    var count: int
    var instance: ModeValue?

    /** The class as first defined: `count = 0`, `_instance = null`. */
    constructor ()
      ensures count == 0 && instance == null
    {
      count := 0;
      instance := null;
    }

    /**
     * `new ModeValue(values)` under `classDecoratorDynamic`: the original
     * constructor runs first, then the first instance is recorded and
     * any later construction throws "Duplicate Instance".
     */
    method New(values: seq<real>) returns (r: Result<ModeValue>)
      modifies this
      ensures count == old(count)
      ensures old(instance) == null ==>
        r.Ok? && fresh(r.value) && r.value.values == values && r.value.cls == this && instance == r.value
      ensures old(instance) != null ==> r == Err("Duplicate Instance") && instance == old(instance)
    {
      var obj := new ModeValue(this, values);
      if instance != null {
        r := Err("Duplicate Instance");
      } else {
        instance := obj;
        r := Ok(obj);
      }
    }
  }

  class ModeValue {
    /** The class this object was constructed from, whose statics it updates. */
    const cls: ModeValueClass
    var values: seq<real>

    /** The undecorated constructor: stores `values`. */
    constructor (cls: ModeValueClass, values: seq<real>)
      ensures this.cls == cls && this.values == values
    {
      this.cls := cls;
      this.values := values;
    }

    /**
     * The body of `getModeValue`: tallies the arguments by string form,
     * bumps the static counter, and returns a key of highest count, or
     * undefined when there are no arguments.
     */
    method GetModeValue(args: seq<ModeArg>) returns (mode: Option<string>)
      modifies cls
      ensures cls.count == old(cls.count) + 1
      ensures cls.instance == old(cls.instance)
      ensures mode.None? <==> args == []
      ensures mode.Some? ==> IsMode(args, mode.value)
    {
      var keys, countObject := Tally(args);
      cls.count := cls.count + 1;
      var entries := seq(|keys|, i requires 0 <= i < |keys| => (keys[i], countObject[keys[i]]));
      var top := MostFrequent(entries);
      if top.None? {
        mode := None;
        if args != [] {
          OccurrencesPositive(args, Key(args[0]));
        }
      } else {
        var key := top.value.0;
        mode := Some(key);
        var b :| 0 <= b < |entries| && entries[b] == top.value &&
                 forall i :: b <= i < |entries| ==> entries[i].1 <= top.value.1;
        assert key == keys[b] && top.value.1 == Occurrences(args, key);
        OccurrencesPositive(args, key);
        forall j | 0 <= j < |args|
          ensures Occurrences(args, Key(args[j])) <= Occurrences(args, key)
        {
          var k := Key(args[j]);
          OccurrencesPositive(args, k);
          assert k in keys;
          var m :| 0 <= m < |keys| && keys[m] == k;
          assert entries[m].1 == Occurrences(args, k);
          if m < b {
            assert entries[m].1 < top.value.1;
          }
        }
      }
    }

    /** `getModeValue` through `@methodDecorator()`: no factory arguments are added. */
    method DecoratedGetModeValue(arguments: seq<ModeArg>) returns (result: Option<string>, reported: nat)
      modifies cls
      ensures cls.count == old(cls.count) + 1
      ensures cls.instance == old(cls.instance)
      ensures result.None? <==> arguments == []
      ensures result.Some? ==> IsMode(arguments, result.value)
      ensures reported == |arguments|
    {
      var values := ExtendArguments(arguments, []);
      assert values == arguments;
      result := GetModeValue(values);
      reported := |values|;
    }

    /** `getValues`: the current contents of the field. */
    method GetValues() returns (r: seq<real>)
      ensures r == values
    {
      r := values;
    }

    /** `setValues(...args)`: appends after the existing values. */
    method SetValues(args: seq<real>)
      modifies this
      ensures values == old(values) + args
      ensures |values| == |old(values)| + |args|
      ensures values[..|old(values)|] == old(values)
    {
      values := values + args;
    }
  }
}
