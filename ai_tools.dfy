/**
 * Get_current_weather from ai-tools.go, the sample native callable: it takes
 * any number of string arguments and returns a fixed prefix followed by each
 * argument, quoted, in order.
 */
module AiTools {

  const Prefix: string := "Function Get_current_weather called with arguments: "

  /** How one argument appears in the result: a space, then the argument in single quotes. */
  function Quoted(value: string): string {
    " '" + value + "'"
  }

  /** The total length of the arguments. */
  function TotalLength(args: seq<string>): nat {
    if args == [] then 0 else |args[0]| + TotalLength(args[1..])
  }

  /** The quoted arguments, first to last: each adds its length and three quoting characters. */
  function QuotedAll(args: seq<string>): (r: string)
    ensures |r| == TotalLength(args) + 3 * |args|
  {
    if args == [] then "" else Quoted(args[0]) + QuotedAll(args[1..])
  }

  /**
   * Get_current_weather's result for `args`: the prefix, then per argument
   * its length plus three characters of quoting.
   */
  function WeatherReport(args: seq<string>): (r: string)
    ensures |r| == |Prefix| + TotalLength(args) + 3 * |args|
    ensures r[..|Prefix|] == Prefix
  {
    Prefix + QuotedAll(args)
  }

  method Get_current_weather(myargs: seq<string>) returns (out: string)
    ensures out == WeatherReport(myargs)
    ensures |out| >= |Prefix| && out[..|Prefix|] == Prefix
    ensures myargs == [] ==> out == Prefix
  {
    out := Prefix;
    for i := 0 to |myargs|
      invariant out == WeatherReport(myargs[..i])
    {
      WeatherReportAppend(myargs[..i], myargs[i]);
      assert myargs[..i + 1] == myargs[..i] + [myargs[i]];
      out := out + " '" + myargs[i] + "'";
    }
    assert myargs[..|myargs|] == myargs;
  }

  /** Appending an argument extends the previous result by that argument, quoted. */
  lemma {:induction false} WeatherReportAppend(args: seq<string>, value: string)
    ensures WeatherReport(args + [value]) == WeatherReport(args) + Quoted(value)
  {
    QuotedAllAppend(args, value);
  }

  lemma {:induction false} QuotedAllAppend(args: seq<string>, value: string)
    ensures QuotedAll(args + [value]) == QuotedAll(args) + Quoted(value)
  {
    if args == [] {
      assert [value][1..] == [];
    } else {
      assert (args + [value])[1..] == args[1..] + [value];
      QuotedAllAppend(args[1..], value);
    }
  }

  /** Each argument appears quoted at its place: after the prefix and the earlier quoted arguments. */
  lemma {:induction false} WeatherReportPlacesArgument(args: seq<string>, i: nat)
    requires i < |args|
    ensures var at := |WeatherReport(args[..i])|;
      && at + |Quoted(args[i])| <= |WeatherReport(args)|
      && WeatherReport(args)[at..at + |Quoted(args[i])|] == Quoted(args[i])
  {
    QuotedAllAppend(args[..i], args[i]);
    assert args[..i + 1] == args[..i] + [args[i]];
    WeatherReportOfPrefix(args[..i + 1], args);
    var at := |WeatherReport(args[..i])|;
    var front := WeatherReport(args[..i + 1]);
    assert front == WeatherReport(args[..i]) + Quoted(args[i]);
    assert WeatherReport(args)[..|front|] == front;
    assert front[at..at + |Quoted(args[i])|] == Quoted(args[i]);
  }

  /** The result for a prefix of the arguments is a prefix of the result. */
  lemma {:induction false} WeatherReportOfPrefix(front: seq<string>, args: seq<string>)
    requires front <= args
    ensures |Prefix + QuotedAll(front)| <= |WeatherReport(args)|
    ensures WeatherReport(args)[..|Prefix + QuotedAll(front)|] == Prefix + QuotedAll(front)
  {
    var rest := args[|front|..];
    assert args == front + rest;
    QuotedAllConcat(front, rest);
  }

  lemma {:induction false} QuotedAllConcat(a: seq<string>, b: seq<string>)
    ensures QuotedAll(a + b) == QuotedAll(a) + QuotedAll(b)
  {
    if a == [] {
      assert a + b == b;
    } else {
      assert (a + b)[1..] == a[1..] + b;
      QuotedAllConcat(a[1..], b);
    }
  }
}
