/**
 * Tool-call arguments as the chat backend delivers them (a JSON object decoded
 * into Go's `map[string]any`) and FlattenArgument from lib/ollama.go, which
 * turns their values into the positional string list a native callable takes.
 */
module Arguments {

  /** One decoded argument value: a JSON string, or any other JSON value (kept as its text). */
  datatype ArgValue = Str(s: string) | NonString(json: string)

  /** `order` lists every key of `m` exactly once. */
  ghost predicate IsKeyOrder(order: seq<string>, m: map<string, ArgValue>) {
    && (forall i, j :: 0 <= i < j < |order| ==> order[i] != order[j])
    && (forall k :: k in m <==> k in order)
  }

  /**
   * Appends the value of every entry of `arguments` to a list, visiting the
   * keys in an unspecified order, as ranging over a Go map does. The Go
   * code's `v.(string)` panics on a non-string value, so every value must be
   * a string. `order` is the key order the loop happened to take.
   */
  method FlattenArgument(arguments: map<string, ArgValue>) returns (args: seq<string>, ghost order: seq<string>)
    requires forall k | k in arguments :: arguments[k].Str?
    ensures IsKeyOrder(order, arguments)
    ensures |args| == |order| == |arguments|
    ensures forall i :: 0 <= i < |args| ==> args[i] == arguments[order[i]].s
    ensures forall v :: multiset(args)[v] == |KeysWithValue(arguments, v)|
  {
    args, order := [], [];
    var rest := arguments.Keys;
    while rest != {}
      invariant rest <= arguments.Keys
      invariant forall k :: k in order <==> k in arguments && k !in rest
      invariant forall i, j :: 0 <= i < j < |order| ==> order[i] != order[j]
      invariant |order| + |rest| == |arguments|
      invariant |args| == |order|
      invariant forall i :: 0 <= i < |args| ==> args[i] == arguments[order[i]].s
      decreases rest
    {
      var k :| k in rest;
      args, order := args + [arguments[k].s], order + [k];
      rest := rest - {k};
    }
    FlattenCounts(args, order, arguments);
  }

  /** The keys of `m` whose value is the string `v`. */
  ghost function KeysWithValue(m: map<string, ArgValue>, v: string): set<string> {
    set k | k in m && m[k] == Str(v)
  }

  /**
   * Listing the values of a map of strings in any key order gives each
   * string as many times as there are keys holding it.
   */
  lemma {:induction false} FlattenCounts(args: seq<string>, order: seq<string>, m: map<string, ArgValue>)
    requires forall k | k in m :: m[k].Str?
    requires IsKeyOrder(order, m)
    requires |args| == |order| && forall i :: 0 <= i < |args| ==> args[i] == m[order[i]].s
    ensures forall v :: multiset(args)[v] == |KeysWithValue(m, v)|
    decreases |order|
  {
    if order == [] {
      forall v ensures multiset(args)[v] == |KeysWithValue(m, v)| {
        assert KeysWithValue(m, v) == {};
      }
    } else {
      var n := |order| - 1;
      var last := order[n];
      KeyOrderDropLast(order, m);
      FlattenCounts(args[..n], order[..n], m - {last});
      assert args == args[..n] + [args[n]];
      forall v ensures multiset(args)[v] == |KeysWithValue(m, v)| {
        KeysWithValueDrop(m, last, v);
      }
    }
  }

  lemma KeyOrderDropLast(order: seq<string>, m: map<string, ArgValue>)
    requires IsKeyOrder(order, m) && order != []
    ensures IsKeyOrder(order[..|order| - 1], m - {order[|order| - 1]})
  {
    var n := |order| - 1;
    var front, rest := order[..n], m - {order[n]};
    forall k ensures k in rest <==> k in front {
      if k in front {
        var j :| 0 <= j < n && front[j] == k;
        assert order[j] == k;
      }
      if k in order && k != order[n] {
        var j :| 0 <= j < |order| && order[j] == k;
        assert front[j] == k;
      }
    }
  }

  lemma KeysWithValueDrop(m: map<string, ArgValue>, key: string, v: string)
    requires key in m
    ensures key !in KeysWithValue(m - {key}, v)
    ensures KeysWithValue(m, v) ==
      KeysWithValue(m - {key}, v) + (if m[key] == Str(v) then {key} else {})
  {
  }
}
