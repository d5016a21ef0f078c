/**
 * The per-fragment callback `respFunc` of HandleOllamaChat in lib/ollama.go:
 * for each streamed chat fragment it decides what is written to the client,
 * in what order, whether the response is flushed and whether the backend
 * call is cancelled.
 *
 * The HTTP response writer, its flusher and the cancel function are a
 * ClientStream object that records every call made on it. `os.Stat` on
 * `lua-tools/<name>.lua` is membership in a set of paths; RunLuaFile,
 * `u.JsonDumpByte` and `json.Unmarshal` are parameters.
 */
module Chat {
  import opened TextScan
  import opened Arguments
  import opened ToolCalls

  /** One call made on the client's response writer. */
  datatype Event = Wrote(text: string) | Flushed

  /** RunLuaFile's (output, error): the captured standard output, or an error with nil output. */
  datatype RunResult = Ran(output: string) | RunFailed

  /** A streamed chat fragment: its text and the backend's structured tool calls. */
  datatype Fragment = Fragment(content: string, toolCalls: seq<ToolCall>)

  /**
   * What the callback consults besides the fragment: the paths for which
   * `os.Stat` does not report "not exist", the script runner, the JSON
   * serialiser of an argument object, and which texts json.Unmarshal accepts.
   */
  datatype Tools = Tools(
    luaFiles: set<string>,
    run: (string, string) -> RunResult,
    dump: map<string, ArgValue> -> string,
    isJson: string -> bool)

  /** What one fragment produces: the writer calls, whether cancel() ran, and whether an error is returned. */
  datatype Reply = Reply(events: seq<Event>, cancelled: bool, failed: bool)

  /** The script path a tool name resolves to. */
  function LuaPath(name: string): string {
    "lua-tools/" + name + ".lua"
  }

  /** Go's `m[k]` on a `map[string]string`: the empty string for a missing key. */
  function Lookup(m: map<string, string>, k: string): string {
    if k in m then m[k] else ""
  }

  /**
   * The one text written for a call from a list (structured or decoded): the
   * fragment's content when the script file is missing, otherwise the
   * script's output, which is empty when the script fails.
   */
  function ListCallText(call: ToolCall, content: string, tools: Tools): (t: string)
    ensures LuaPath(call.name) !in tools.luaFiles ==> t == content
    ensures LuaPath(call.name) in tools.luaFiles ==>
      var result := tools.run(LuaPath(call.name), tools.dump(call.arguments));
      result == Ran(t) || (result.RunFailed? && t == "")
  {
    var path := LuaPath(call.name);
    if path !in tools.luaFiles then content
    else match tools.run(path, tools.dump(call.arguments))
      case Ran(out) => out
      case RunFailed => ""
  }

  /** The writes for a list of calls, one per call, in list order. */
  function ListCallWrites(calls: seq<ToolCall>, content: string, tools: Tools): (w: seq<Event>)
    ensures |w| == |calls| && Flushed !in w
  {
    if calls == [] then []
    else [Wrote(ListCallText(calls[0], content, tools))] + ListCallWrites(calls[1..], content, tools)
  }

  /**
   * The one text written for a bare call: the fragment's content when the
   * script file is missing or the script fails, otherwise its output. The
   * payload goes to the script as it is, not re-serialised.
   */
  function BareCallText(call: map<string, string>, content: string, tools: Tools): (t: string)
    ensures LuaPath(Lookup(call, FuncNameKey)) !in tools.luaFiles ==> t == content
    ensures LuaPath(Lookup(call, FuncNameKey)) in tools.luaFiles ==>
      var result := tools.run(LuaPath(Lookup(call, FuncNameKey)), Lookup(call, ArgsJsonKey));
      result == Ran(t) || (result.RunFailed? && t == content)
  {
    var path := LuaPath(Lookup(call, FuncNameKey));
    if path !in tools.luaFiles then content
    else match tools.run(path, Lookup(call, ArgsJsonKey))
      case Ran(out) => out
      case RunFailed => content
  }

  /**
   * What respFunc does with one fragment, as a function of the fragment, the
   * tools and whether the client accepts writes.
   */
  function FragmentReply(frag: Fragment, tools: Tools, accepting: bool): (r: Reply)
    ensures r.cancelled == r.failed
    ensures r.failed <==> frag.toolCalls == [] && ParseToolCalls(frag.content, tools.isJson) == ParseError && !accepting
    ensures |r.events| > 0 && r.events[|r.events| - 1] == if r.failed then Wrote(frag.content) else Flushed
    ensures Flushed !in r.events[..|r.events| - 1]
  {
    if |frag.toolCalls| > 0 then
      Reply(ListCallWrites(frag.toolCalls, frag.content, tools) + [Flushed], false, false)
    else
      match ParseToolCalls(frag.content, tools.isJson)
      case Decoded(v) =>
        var writes :=
          match v
          case ToolFunctionList(calls) => ListCallWrites(calls, frag.content, tools)
          case StringMap(m) => [Wrote(BareCallText(m, frag.content, tools))]
          case JsonAny(_) => [];
        Reply(writes + [Flushed], false, false)
      case ParseError =>
        if accepting then Reply([Wrote(frag.content), Flushed], false, false)
        else Reply([Wrote(frag.content)], true, true)
  }

  /**
   * The client side of one chat request: the response writer with its
   * flusher, and the cancel function of the backend call. `sent` records
   * every Write and Flush in order; `accepting` is whether writes succeed
   * (they fail once the client has gone away).
   */
  class ClientStream {
    var sent: seq<Event>
    var cancelled: bool
    const accepting: bool

    constructor (accepting: bool)
      ensures sent == [] && !cancelled && this.accepting == accepting
    {
      sent := [];
      cancelled := false;
      this.accepting := accepting;
    }

    /** fmt.Fprint(w, text): records the write and reports whether it succeeded. */
    method Write(text: string) returns (ok: bool)
      modifies this`sent
      ensures sent == old(sent) + [Wrote(text)]
      ensures ok == accepting
    {
      sent := sent + [Wrote(text)];
      ok := accepting;
    }

    /** flusher.Flush(). */
    method Flush()
      modifies this`sent
      ensures sent == old(sent) + [Flushed]
    {
      sent := sent + [Flushed];
    }

    /** cancel() of the backend call's context. */
    method Cancel()
      modifies this`cancelled
      ensures cancelled
    {
      cancelled := true;
    }

    /** The loop over a list of calls: one write per call, errors ignored. */
    method WriteCalls(calls: seq<ToolCall>, content: string, tools: Tools)
      modifies this`sent
      ensures sent == old(sent) + ListCallWrites(calls, content, tools)
    {
      var i := 0;
      while i < |calls|
        invariant 0 <= i <= |calls|
        invariant sent == old(sent) + ListCallWrites(calls[..i], content, tools)
      {
        var call := calls[i];
        var path := LuaPath(call.name);
        ghost var before := sent;
        if path !in tools.luaFiles {
          var _ := Write(content);
        } else {
          var result := tools.run(path, tools.dump(call.arguments));
          var output := if result.Ran? then result.output else "";
          var _ := Write(output);
        }
        assert sent == before + [Wrote(ListCallText(call, content, tools))];
        ListCallWritesSnoc(calls[..i], call, content, tools);
        assert calls[..i + 1] == calls[..i] + [call];
        i := i + 1;
      }
      assert calls[..i] == calls;
    }

    /** respFunc: handles one fragment and returns whether it failed. */
    method RespFunc(frag: Fragment, tools: Tools) returns (failed: bool)
      modifies this`sent, this`cancelled
      ensures var r := FragmentReply(frag, tools, accepting);
        && sent == old(sent) + r.events
        && cancelled == (old(cancelled) || r.cancelled)
        && failed == r.failed
    {
      failed := false;
      if |frag.toolCalls| > 0 {
        WriteCalls(frag.toolCalls, frag.content, tools);
      } else {
        var parsed := ParseToolCalls(frag.content, tools.isJson);
        if parsed.Decoded? {
          match parsed.value
          case ToolFunctionList(_) =>
            // The `[]ToolFunctionResponse` assertion never succeeds: the body
            // is decoded into an `any` (see NeverToolFunctionList).
            assert false;
          case StringMap(call) =>
            var path := LuaPath(Lookup(call, FuncNameKey));
            if path !in tools.luaFiles {
              var _ := Write(frag.content);
            } else {
              var result := tools.run(path, Lookup(call, ArgsJsonKey));
              if result.RunFailed? {
                var _ := Write(frag.content);
              } else {
                var _ := Write(result.output);
              }
            }
          case JsonAny(_) =>
        } else {
          var ok := Write(frag.content);
          if !ok {
            Cancel();
            failed := true;
            return;
          }
        }
      }
      Flush();
    }
  }

  lemma {:induction false} ListCallWritesSnoc(calls: seq<ToolCall>, call: ToolCall, content: string, tools: Tools)
    ensures ListCallWrites(calls + [call], content, tools)
         == ListCallWrites(calls, content, tools) + [Wrote(ListCallText(call, content, tools))]
  {
    if calls == [] {
      assert [call][1..] == [];
    } else {
      assert (calls + [call])[1..] == calls[1..] + [call];
      ListCallWritesSnoc(calls[1..], call, content, tools);
    }
  }

  /** A list of calls gives one write per call, in list order. */
  lemma {:induction false} ListCallWritesAt(calls: seq<ToolCall>, content: string, tools: Tools)
    ensures forall i :: 0 <= i < |calls| ==>
      ListCallWrites(calls, content, tools)[i] == Wrote(ListCallText(calls[i], content, tools))
  {
    if calls != [] {
      ListCallWritesAt(calls[1..], content, tools);
      var w := ListCallWrites(calls, content, tools);
      forall i | 0 < i < |calls|
        ensures w[i] == Wrote(ListCallText(calls[i], content, tools))
      {
        assert calls[1..][i - 1] == calls[i];
      }
    }
  }

  /** The list-call writes do not depend on which texts json.Unmarshal accepts. */
  lemma {:induction false} ListCallWritesIgnoreJson(calls: seq<ToolCall>, content: string, tools: Tools, isJson: string -> bool)
    ensures ListCallWrites(calls, content, tools) == ListCallWrites(calls, content, tools.(isJson := isJson))
  {
    if calls != [] {
      ListCallWritesIgnoreJson(calls[1..], content, tools, isJson);
    }
  }

  /**
   * With structured tool calls present ParseToolCalls is never consulted,
   * each call gets exactly one write in list order (the content for a
   * missing script, otherwise the script's output, empty when it fails), then
   * one flush, and the fragment never fails.
   */
  lemma StructuredCalls(frag: Fragment, tools: Tools, accepting: bool, isJson: string -> bool, accepting': bool)
    requires |frag.toolCalls| > 0
    ensures FragmentReply(frag, tools, accepting) == FragmentReply(frag, tools.(isJson := isJson), accepting')
    ensures var r := FragmentReply(frag, tools, accepting);
      && !r.cancelled && !r.failed
      && |r.events| == |frag.toolCalls| + 1
      && r.events[|frag.toolCalls|] == Flushed
      && forall i :: 0 <= i < |frag.toolCalls| ==>
           var path := LuaPath(frag.toolCalls[i].name);
           r.events[i] == Wrote(
             if path !in tools.luaFiles then frag.content
             else match tools.run(path, tools.dump(frag.toolCalls[i].arguments))
               case Ran(out) => out
               case RunFailed => "")
  {
    ListCallWritesIgnoreJson(frag.toolCalls, frag.content, tools, isJson);
    ListCallWritesAt(frag.toolCalls, frag.content, tools);
  }

  /** An envelope body that json.Unmarshal accepts writes nothing: the fragment only flushes. */
  lemma JsonBodyWritesNothing(frag: Fragment, tools: Tools, accepting: bool)
    requires frag.toolCalls == []
    requires FindEnvelope(frag.content).Some? && tools.isJson(FindEnvelope(frag.content).value.body)
    ensures FragmentReply(frag, tools, accepting) == Reply([Flushed], false, false)
  {
    JsonBodyIsGeneric(frag.content, tools.isJson);
  }

  /**
   * A bare call found in a non-JSON envelope writes once and flushes: the
   * content when the script is missing or fails, otherwise its output.
   */
  lemma BareCallReply(frag: Fragment, tools: Tools, accepting: bool, name: string, args: string)
    requires frag.toolCalls == []
    requires ParseToolCalls(frag.content, tools.isJson) == Decoded(StringMap(map[FuncNameKey := name, ArgsJsonKey := args]))
    ensures var path := LuaPath(name);
      FragmentReply(frag, tools, accepting) == Reply([Wrote(
        if path !in tools.luaFiles then frag.content
        else match tools.run(path, args)
          case Ran(out) => out
          case RunFailed => frag.content), Flushed], false, false)
  {
    var m := map[FuncNameKey := name, ArgsJsonKey := args];
    assert Lookup(m, FuncNameKey) == name && Lookup(m, ArgsJsonKey) == args;
  }

  /** A fragment that is not a tool call is written verbatim; a failed write cancels and skips the flush. */
  lemma PassThrough(frag: Fragment, tools: Tools, accepting: bool)
    requires frag.toolCalls == [] && ParseToolCalls(frag.content, tools.isJson) == ParseError
    ensures accepting ==> FragmentReply(frag, tools, accepting) == Reply([Wrote(frag.content), Flushed], false, false)
    ensures !accepting ==> FragmentReply(frag, tools, accepting) == Reply([Wrote(frag.content)], true, true)
  {
  }

  /**
   * A fragment fails exactly when it is passed through and the write fails;
   * then the backend call is cancelled and nothing is flushed. Every other
   * fragment ends with exactly one flush and cancels nothing.
   */
  lemma FlushOnceUnlessFailed(frag: Fragment, tools: Tools, accepting: bool)
    ensures var r := FragmentReply(frag, tools, accepting);
      && (r.failed <==> frag.toolCalls == [] && ParseToolCalls(frag.content, tools.isJson) == ParseError && !accepting)
      && r.cancelled == r.failed
      && (r.failed ==> Flushed !in r.events)
      && (!r.failed ==> |r.events| > 0 && r.events[|r.events| - 1] == Flushed && Flushed !in r.events[..|r.events| - 1])
  {
    var r := FragmentReply(frag, tools, accepting);
    if |frag.toolCalls| > 0 {
      assert r.events[..|r.events| - 1] == ListCallWrites(frag.toolCalls, frag.content, tools);
    } else if ParseToolCalls(frag.content, tools.isJson).Decoded? {
      NeverToolFunctionList(frag.content, tools.isJson);
    }
  }

  /**
   * The fragment produces no write at all exactly when it has no structured
   * calls and its envelope body is JSON: the one case in which a tool call
   * is dropped rather than answered or echoed.
   */
  lemma OnlyJsonBodiesWriteNothing(frag: Fragment, tools: Tools, accepting: bool)
    ensures var r := FragmentReply(frag, tools, accepting);
      (forall i :: 0 <= i < |r.events| ==> !r.events[i].Wrote?) <==>
        frag.toolCalls == [] && ParseToolCalls(frag.content, tools.isJson).Decoded?
        && ParseToolCalls(frag.content, tools.isJson).value.JsonAny?
  {
    var r := FragmentReply(frag, tools, accepting);
    if |frag.toolCalls| > 0 {
      ListCallWritesAt(frag.toolCalls, frag.content, tools);
      assert r.events[0] == Wrote(ListCallText(frag.toolCalls[0], frag.content, tools));
    } else {
      var parsed := ParseToolCalls(frag.content, tools.isJson);
      NeverToolFunctionList(frag.content, tools.isJson);
      if parsed.ParseError? {
        assert r.events[0] == Wrote(frag.content);
      } else if parsed.value.StringMap? {
        assert r.events[0] == Wrote(BareCallText(parsed.value.entries, frag.content, tools));
      } else {
        assert r.events == [Flushed];
      }
    }
  }

  /**
   * A bare call with no envelope around it is not a tool call: the client
   * gets the text unchanged, whatever scripts exist.
   */
  lemma BareCallWithoutEnvelopeEchoed(tools: Tools)
    ensures var text := "print(lookup_price(sku123))";
      FragmentReply(Fragment(text, []), tools, true) == Reply([Wrote(text), Flushed], false, false)
  {
    BareCallAloneIsParseError(tools.isJson);
  }

  /**
   * The tagged weather call whose body is JSON writes nothing, whatever the
   * Get_current_weather script would print: the decoded body never reaches
   * the tool loop.
   */
  lemma TaggedWeatherCallWritesNothing(tools: Tools, accepting: bool)
    requires tools.isJson(WeatherCallJson)
    ensures FragmentReply(Fragment(TagOpen + WeatherCallJson + TagClose, []), tools, accepting)
         == Reply([Flushed], false, false)
  {
    WeatherCallJsonLacksTag();
    TaggedBodyFound(WeatherCallJson);
    JsonBodyWritesNothing(Fragment(TagOpen + WeatherCallJson + TagClose, []), tools, accepting);
  }

  /** The JSON array of one Get_current_weather call for Paris in celsius. */
  const WeatherCallJson: string :=
    "[{\"type\":\"function\"," + "\"function\":{\"name\":" + "\"Get_current_weather\","
    + "\"arguments\":{\"location\":" + "\"Paris\",\"format\":\"celsius\"}}}]"

  lemma WeatherCallJsonLacksTag()
    ensures Lacks(WeatherCallJson, '<')
  {
    var a, b, c := "[{\"type\":\"function\",", "\"function\":{\"name\":", "\"Get_current_weather\",";
    var d, e := "\"arguments\":{\"location\":", "\"Paris\",\"format\":\"celsius\"}}}]";
    assert Lacks(a, '<') && Lacks(b, '<') && Lacks(c, '<') && Lacks(d, '<') && Lacks(e, '<');
    LacksConcat(a, b, '<');
    LacksConcat(a + b, c, '<');
    LacksConcat(a + b + c, d, '<');
    LacksConcat(a + b + c + d, e, '<');
  }

  /**
   * A bare call `print(name(args))` inside a tagged envelope, with no
   * lua-tools/<name>.lua, writes the original text; with the script it writes
   * the script's output for the payload `args`, or the text when the script
   * fails.
   */
  lemma BareCallInEnvelopeReply(tools: Tools, accepting: bool, name: string, args: string)
    requires IsIdentifier(name) && Lacks(args, ')') && Lacks(args, '<')
    requires !tools.isJson(PrintedText(name, args))
    ensures var text, path := TagOpen + PrintedText(name, args) + TagClose, LuaPath(name);
      FragmentReply(Fragment(text, []), tools, accepting) == Reply([Wrote(
        if path !in tools.luaFiles then text
        else match tools.run(path, args)
          case Ran(out) => out
          case RunFailed => text), Flushed], false, false)
  {
    PrintedCallInEnvelope(name, args, tools.isJson);
    BareCallReply(Fragment(TagOpen + PrintedText(name, args) + TagClose, []), tools, accepting, name, args);
  }
}
