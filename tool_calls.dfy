/**
 * ParseToolCalls from lib/ollama.go: find a tool-call envelope in a model
 * reply, decode its body as JSON, and fall back to a bare `name(payload)`
 * call when the body is not JSON.
 *
 * The three regular expressions of the source are written out as scans with
 * Go's leftmost-first semantics: the first match is the one with the
 * smallest start, and at that start the lazy body is the shortest one.
 *   tagged:  (?s)<\|tool_call\|>(.*?)<\|/tool_call\|>
 *   fenced:  (?s)```tool[^\s]*\n(.*?)\n```
 *   bare:    (?s)(?:print\()?([a-zA-Z_][a-zA-Z0-9_]*)\((.*?)\)\)?
 */
module ToolCalls {
  import opened Basics
  import opened TextScan
  import opened Arguments

  const TagOpen: string := "<|tool_call|>"
  const TagClose: string := "<|/tool_call|>"
  const FenceOpen: string := "```tool"
  const FenceClose: string := "\n```"
  const PrintOpen: string := "print("

  /** The keys of the map the bare-call fallback returns. */
  const FuncNameKey: string := "func_name"
  const ArgsJsonKey: string := "args_json"

  /** A tool call: a function name and its decoded argument object. */
  datatype ToolCall = ToolCall(name: string, arguments: map<string, ArgValue>)

  /**
   * The dynamic type of the value ParseToolCalls returns in its `any` result.
   * JsonAny is whatever json.Unmarshal builds when decoding into an `any`
   * (a generic map, slice, string, number, bool or nil), kept as the text it
   * was decoded from; ToolFunctionList is a `[]ToolFunctionResponse`;
   * StringMap is a `map[string]string`.
   */
  datatype AnyValue =
    | JsonAny(text: string)
    | ToolFunctionList(calls: seq<ToolCall>)
    | StringMap(entries: map<string, string>)

  /** The (value, error) pair of ParseToolCalls: a value, or "failed to parse tool calls". */
  datatype Parsed = Decoded(value: AnyValue) | ParseError

  /** The three fixed patterns. */
  datatype Pattern = TaggedEnvelope | FencedBlock | BareCall

  /** Which envelope matched, where it starts, and its captured body. */
  datatype Envelope = Envelope(pattern: Pattern, start: nat, body: string)

  // ---------------------------------------------------------------------
  // Matching at one position

  /** The capture groups of a match of `pat` that starts exactly at `i`. */
  function MatchAt(pat: Pattern, s: string, i: nat): (r: Option<seq<string>>)
    requires i <= |s|
    ensures r.Some? ==> |r.value| == if pat == BareCall then 2 else 1
  {
    match pat
    case TaggedEnvelope => TaggedAt(s, i)
    case FencedBlock => FencedAt(s, i)
    case BareCall => BareCallAt(s, i)
  }

  /** `<|tool_call|>(.*?)<|/tool_call|>` at `i`: the body runs to the first closing tag. */
  function TaggedAt(s: string, i: nat): (r: Option<seq<string>>)
    requires i <= |s|
    ensures r.Some? ==> |r.value| == 1
    ensures r.Some? ==> StartsAt(s, TagOpen, i) && StartsAt(s, TagClose, i + |TagOpen| + |r.value[0]|)
    ensures r.Some? ==> s[i + |TagOpen|..i + |TagOpen| + |r.value[0]|] == r.value[0]
  {
    if StartsAt(s, TagOpen, i) then
      match FindFrom(s, TagClose, i + |TagOpen|)
      case Some(j) => Some([s[i + |TagOpen|..j]])
      case None => None
    else None
  }

  /**
   * "```tool[^\s]*\n(.*?)\n```" at `i`. The suffix class excludes `\n`, so
   * only the longest suffix can be followed by the newline; the body then runs
   * to the first "\n```" after that newline.
   */
  function FencedAt(s: string, i: nat): (r: Option<seq<string>>)
    requires i <= |s|
    ensures r.Some? ==> |r.value| == 1
    ensures r.Some? ==> StartsAt(s, FenceOpen, i)
    ensures r.Some? ==>
      exists l: nat :: (i + |FenceOpen| <= l && l + 1 + |r.value[0]| <= |s|
        && s[l] == '\n' && s[l + 1..l + 1 + |r.value[0]|] == r.value[0]
        && StartsAt(s, FenceClose, l + 1 + |r.value[0]|))
  {
    if StartsAt(s, FenceOpen, i) then
      var l := SpanEnd(s, i + |FenceOpen|, NotSpace);
      if l < |s| && s[l] == '\n' then
        match FindFrom(s, FenceClose, l + 1)
        case Some(j) => Some([s[l + 1..j]])
        case None => None
      else None
    else None
  }

  /**
   * `(?:print\()?([a-zA-Z_][a-zA-Z0-9_]*)\((.*?)\)\)?` at `i`. The optional
   * `print(` is tried first; when the call after it does not match, the
   * identifier is read from `i` itself. The trailing optional `)` changes
   * neither whether there is a match nor the groups.
   */
  function BareCallAt(s: string, i: nat): (r: Option<seq<string>>)
    requires i <= |s|
    ensures r.Some? ==> |r.value| == 2
    ensures r.Some? <==> CallAt(s, i).Some? || (StartsAt(s, PrintOpen, i) && CallAt(s, i + |PrintOpen|).Some?)
  {
    var afterPrint := if StartsAt(s, PrintOpen, i) then CallAt(s, i + |PrintOpen|) else None;
    if afterPrint.Some? then afterPrint else CallAt(s, i)
  }

  /**
   * `([a-zA-Z_][a-zA-Z0-9_]*)\((.*?)\)` at `p`. A shorter identifier would be
   * followed by an identifier character rather than `(`, so only the longest
   * one can match; the payload runs to the first `)`.
   */
  function CallAt(s: string, p: nat): (r: Option<seq<string>>)
    requires p <= |s|
    ensures r.Some? ==> |r.value| == 2
    ensures r.Some? ==> var e := p + |r.value[0]|;
      && p < e && e + 1 + |r.value[1]| < |s|
      && IsIdentStart(s[p]) && s[p..e] == r.value[0]
      && s[e] == '(' && s[e + 1..e + 1 + |r.value[1]|] == r.value[1]
      && s[e + 1 + |r.value[1]|] == ')'
  {
    if p < |s| && IsIdentStart(s[p]) then
      var e := SpanEnd(s, p, IsIdentChar);
      if e < |s| && s[e] == '(' then
        match FindFrom(s, ")", e + 1)
        case Some(q) => Some([s[p..e], s[e + 1..q]])
        case None => None
      else None
    else None
  }

  // ---------------------------------------------------------------------
  // Reference definitions of a match, stated without the scans

  /** `body` is the lazy capture of a tagged envelope opened at `i`. */
  ghost predicate IsTaggedMatch(s: string, i: nat, body: string) {
    && StartsAt(s, TagOpen, i)
    && var b := i + |TagOpen|;
    && b + |body| <= |s| && s[b..b + |body|] == body
    && StartsAt(s, TagClose, b + |body|)
    && forall k: nat :: b <= k < b + |body| ==> !StartsAt(s, TagClose, k)
  }

  /** `body` is the lazy capture of a block fenced with "```tool" + `suffix` + "\n" at `i`. */
  ghost predicate IsFencedMatch(s: string, i: nat, suffix: string, body: string) {
    && StartsAt(s, FenceOpen, i)
    && var l := i + |FenceOpen|;
    && l + |suffix| < |s| && s[l..l + |suffix|] == suffix && s[l + |suffix|] == '\n'
    && (forall k :: 0 <= k < |suffix| ==> !IsSpace(suffix[k]))
    && var b := l + |suffix| + 1;
    && b + |body| <= |s| && s[b..b + |body|] == body
    && StartsAt(s, FenceClose, b + |body|)
    && forall k: nat :: b <= k < b + |body| ==> !StartsAt(s, FenceClose, k)
  }

  /** `name(args)` starts at `p`, `name` an identifier and `args` free of `)`. */
  ghost predicate IsCallMatch(s: string, p: nat, name: string, args: string) {
    && IsIdentifier(name)
    && var e := p + |name|;
    && e + 1 + |args| < |s|
    && s[p..e] == name && s[e] == '('
    && s[e + 1..e + 1 + |args|] == args && s[e + 1 + |args|] == ')'
    && forall k :: 0 <= k < |args| ==> args[k] != ')'
  }

  /**
   * The bare-call pattern matches at `i` with groups `name` and `args`: when
   * `print(` starts at `i` and a call follows it, that call; otherwise a
   * call starting at `i` itself.
   */
  ghost predicate IsBareMatch(s: string, i: nat, name: string, args: string) {
    if StartsAt(s, PrintOpen, i) && CallOpensAt(s, i + |PrintOpen|)
    then IsCallMatch(s, i + |PrintOpen|, name, args)
    else IsCallMatch(s, i, name, args)
  }

  /** Some call `name(args)` starts at `p`. */
  ghost predicate CallOpensAt(s: string, p: nat) {
    exists name, args :: IsCallMatch(s, p, name, args)
  }

  lemma TaggedAtMeaning(s: string, i: nat, body: string)
    requires i <= |s|
    ensures TaggedAt(s, i) == Some([body]) <==> IsTaggedMatch(s, i, body)
  {
    var b := i + |TagOpen|;
    if StartsAt(s, TagOpen, i) && b + |body| <= |s| {
      FindFromIs(s, TagClose, b, b + |body|);
    }
  }

  lemma FencedAtMeaning(s: string, i: nat, body: string)
    requires i <= |s|
    ensures FencedAt(s, i) == Some([body]) <==> exists suffix :: IsFencedMatch(s, i, suffix, body)
  {
    if FencedAt(s, i) == Some([body]) {
      FencedAtSound(s, i, body);
    }
    if suffix :| IsFencedMatch(s, i, suffix, body) {
      FencedAtComplete(s, i, suffix, body);
    }
  }

  lemma FencedAtSound(s: string, i: nat, body: string)
    requires i <= |s| && FencedAt(s, i) == Some([body])
    ensures IsFencedMatch(s, i, s[i + |FenceOpen|..SpanEnd(s, i + |FenceOpen|, NotSpace)], body)
  {
    var l0 := i + |FenceOpen|;
    var l := SpanEnd(s, l0, NotSpace);
    assert l < |s| && s[l] == '\n';
    var j := FindFrom(s, FenceClose, l + 1).value;
    assert body == s[l + 1..j];
    var suffix := s[l0..l];
    forall k | 0 <= k < |suffix| ensures !IsSpace(suffix[k]) {
      assert suffix[k] == s[l0 + k] && NotSpace(s[l0 + k]);
    }
    FencedMatchOfParts(s, i, suffix, body);
  }

  /** The pieces of a fenced match, checked one by one. */
  lemma FencedMatchOfParts(s: string, i: nat, suffix: string, body: string)
    requires StartsAt(s, FenceOpen, i)
    requires var l := i + |FenceOpen| + |suffix|;
      l < |s| && s[i + |FenceOpen|..l] == suffix && s[l] == '\n'
    requires forall k :: 0 <= k < |suffix| ==> !IsSpace(suffix[k])
    requires var b := i + |FenceOpen| + |suffix| + 1;
      && b + |body| <= |s| && s[b..b + |body|] == body
      && StartsAt(s, FenceClose, b + |body|)
      && forall k: nat :: b <= k < b + |body| ==> !StartsAt(s, FenceClose, k)
    ensures IsFencedMatch(s, i, suffix, body)
  {
  }

  lemma FencedAtComplete(s: string, i: nat, suffix: string, body: string)
    requires i <= |s| && IsFencedMatch(s, i, suffix, body)
    ensures FencedAt(s, i) == Some([body])
  {
    var l0 := i + |FenceOpen|;
    var l := l0 + |suffix|;
    forall k | l0 <= k < l ensures NotSpace(s[k]) {
      assert s[k] == suffix[k - l0];
    }
    SpanEndIs(s, l0, NotSpace, l);
    FindFromFirst(s, FenceClose, l + 1, l + 1 + |body|);
  }

  lemma CallAtMeaning(s: string, p: nat, name: string, args: string)
    requires p <= |s|
    ensures CallAt(s, p) == Some([name, args]) <==> IsCallMatch(s, p, name, args)
  {
    if CallAt(s, p) == Some([name, args]) {
      CallAtSound(s, p, name, args);
    }
    if IsCallMatch(s, p, name, args) {
      CallAtComplete(s, p, name, args);
    }
  }

  lemma CallAtSound(s: string, p: nat, name: string, args: string)
    requires p <= |s| && CallAt(s, p) == Some([name, args])
    ensures IsCallMatch(s, p, name, args)
  {
    var e := SpanEnd(s, p, IsIdentChar);
    var q := FindFrom(s, ")", e + 1).value;
    forall k | 0 <= k < |args| ensures args[k] != ')' {
      assert args[k] == s[e + 1 + k];
      assert !StartsAt(s, ")", e + 1 + k);
      assert s[e + 1 + k..e + 1 + k + 1] == [s[e + 1 + k]];
    }
    forall k | 0 <= k < |name| ensures IsIdentChar(name[k]) {
      assert name[k] == s[p + k];
    }
  }

  lemma CallAtComplete(s: string, p: nat, name: string, args: string)
    requires p <= |s| && IsCallMatch(s, p, name, args)
    ensures CallAt(s, p) == Some([name, args])
  {
    var e := p + |name|;
    forall k | p <= k < e ensures IsIdentChar(s[k]) {
      assert s[k] == name[k - p];
    }
    assert !IsIdentChar(s[e]);
    SpanEndIs(s, p, IsIdentChar, e);
    forall k: nat | e + 1 <= k < e + 1 + |args| ensures !StartsAt(s, ")", k) {
      assert s[k] == args[k - e - 1];
      assert s[k..k + 1] == [s[k]];
    }
    assert s[e + 1 + |args|..e + 1 + |args| + 1] == [')'];
    FindFromFirst(s, ")", e + 1, e + 1 + |args|);
  }

  lemma BareCallAtMeaning(s: string, i: nat, name: string, args: string)
    requires i <= |s|
    ensures BareCallAt(s, i) == Some([name, args]) <==> IsBareMatch(s, i, name, args)
  {
    if StartsAt(s, PrintOpen, i) {
      var p := i + |PrintOpen|;
      var after := CallAt(s, p);
      if after.Some? {
        var n, a := after.value[0], after.value[1];
        assert after.value == [n, a];
        CallAtMeaning(s, p, n, a);
        CallAtMeaning(s, p, name, args);
      } else {
        forall n, a ensures !IsCallMatch(s, p, n, a) {
          CallAtMeaning(s, p, n, a);
        }
        CallAtMeaning(s, i, name, args);
      }
    } else {
      CallAtMeaning(s, i, name, args);
    }
  }

  /** No tagged envelope opens at `i` exactly when TaggedAt finds none there. */
  lemma TaggedAtNone(s: string, i: nat)
    requires i <= |s|
    ensures TaggedAt(s, i).None? <==> forall b :: !IsTaggedMatch(s, i, b)
  {
    var r := TaggedAt(s, i);
    if r.Some? {
      assert r.value == [r.value[0]];
      TaggedAtMeaning(s, i, r.value[0]);
    } else {
      forall b ensures !IsTaggedMatch(s, i, b) {
        TaggedAtMeaning(s, i, b);
      }
    }
  }

  /** No fenced block opens at `i` exactly when FencedAt finds none there. */
  lemma FencedAtNone(s: string, i: nat)
    requires i <= |s|
    ensures FencedAt(s, i).None? <==> forall suffix, b :: !IsFencedMatch(s, i, suffix, b)
  {
    var r := FencedAt(s, i);
    if r.Some? {
      assert r.value == [r.value[0]];
      FencedAtMeaning(s, i, r.value[0]);
    } else {
      forall suffix, b ensures !IsFencedMatch(s, i, suffix, b) {
        FencedAtMeaning(s, i, b);
      }
    }
  }

  // ---------------------------------------------------------------------
  // Leftmost match, envelope priority and the parser

  /** The first match of `pat` in `s` at or after `i` (Go's first FindAllStringSubmatch entry). */
  function Leftmost(pat: Pattern, s: string, i: nat): (r: Option<(nat, seq<string>)>)
    requires i <= |s|
    ensures r.Some? ==> i <= r.value.0 <= |s| && MatchAt(pat, s, r.value.0) == Some(r.value.1)
    ensures r.Some? ==> forall k: nat :: i <= k < r.value.0 ==> MatchAt(pat, s, k).None?
    ensures r.None? ==> forall k: nat :: i <= k <= |s| ==> MatchAt(pat, s, k).None?
    decreases |s| - i
  {
    var m := MatchAt(pat, s, i);
    if m.Some? then Some((i, m.value))
    else if i == |s| then None
    else Leftmost(pat, s, i + 1)
  }

  /** The envelope whose body is parsed: a tagged one if any, otherwise a fenced one. */
  function FindEnvelope(s: string): (r: Option<Envelope>)
    ensures r.Some? ==> && r.value.pattern != BareCall && r.value.start <= |s|
                        && MatchAt(r.value.pattern, s, r.value.start) == Some([r.value.body])
                        && forall k: nat :: k < r.value.start ==> MatchAt(r.value.pattern, s, k).None?
    ensures r.Some? && r.value.pattern == FencedBlock ==>
      forall k: nat :: k <= |s| ==> MatchAt(TaggedEnvelope, s, k).None?
    ensures r.None? ==>
      forall k: nat :: k <= |s| ==> MatchAt(TaggedEnvelope, s, k).None? && MatchAt(FencedBlock, s, k).None?
  {
    match Leftmost(TaggedEnvelope, s, 0)
    case Some(m) => Some(Envelope(TaggedEnvelope, m.0, m.1[0]))
    case None =>
      match Leftmost(FencedBlock, s, 0)
      case Some(m) => Some(Envelope(FencedBlock, m.0, m.1[0]))
      case None => None
  }

  /**
   * ParseToolCalls. `isJson` says which texts json.Unmarshal accepts. A body
   * that decodes is returned as the generic value Unmarshal builds into an
   * `any`; one that does not is scanned for a bare call, returned as a
   * `map[string]string` with keys func_name and args_json.
   */
  function ParseToolCalls(input: string, isJson: string -> bool): (r: Parsed)
    ensures FindEnvelope(input).None? ==> r == ParseError
    ensures r.Decoded? ==> !r.value.ToolFunctionList?
    ensures r.Decoded? && r.value.JsonAny? ==>
      FindEnvelope(input).Some? && r.value.text == FindEnvelope(input).value.body && isJson(r.value.text)
    ensures r.Decoded? && r.value.StringMap? ==>
      FindEnvelope(input).Some? && !isJson(FindEnvelope(input).value.body)
      && r.value.entries.Keys == {FuncNameKey, ArgsJsonKey}
    ensures FindEnvelope(input).Some? && isJson(FindEnvelope(input).value.body) ==>
      r == Decoded(JsonAny(FindEnvelope(input).value.body))
    ensures FindEnvelope(input).Some? && !isJson(FindEnvelope(input).value.body) ==>
      (r == ParseError <==> Leftmost(BareCall, FindEnvelope(input).value.body, 0).None?)
  {
    match FindEnvelope(input)
    case None => ParseError
    case Some(env) =>
      if isJson(env.body) then Decoded(JsonAny(env.body))
      else
        match Leftmost(BareCall, env.body, 0)
        case None => ParseError
        case Some(m) => Decoded(StringMap(map[FuncNameKey := m.1[0], ArgsJsonKey := m.1[1]]))
  }

  // ---------------------------------------------------------------------
  // Properties

  /** The tagged envelope wins: its leftmost match is used whatever fenced blocks exist. */
  lemma TaggedEnvelopeFirst(s: string, i: nat, body: string)
    requires i <= |s| && IsTaggedMatch(s, i, body)
    requires forall k: nat, b :: k < i ==> !IsTaggedMatch(s, k, b)
    ensures FindEnvelope(s) == Some(Envelope(TaggedEnvelope, i, body))
  {
    TaggedAtMeaning(s, i, body);
    assert MatchAt(TaggedEnvelope, s, i).Some?;
    var m := Leftmost(TaggedEnvelope, s, 0);
    var j := m.value.0;
    assert m.value.1 == [m.value.1[0]];
    TaggedAtMeaning(s, j, m.value.1[0]);
    assert IsTaggedMatch(s, j, m.value.1[0]);
  }

  /** Without any tagged envelope, the leftmost fenced block is used. */
  lemma FencedEnvelopeSecond(s: string, i: nat, suffix: string, body: string)
    requires i <= |s| && IsFencedMatch(s, i, suffix, body)
    requires forall k: nat, b :: !IsTaggedMatch(s, k, b)
    requires forall k: nat, suffix, b :: k < i ==> !IsFencedMatch(s, k, suffix, b)
    ensures FindEnvelope(s) == Some(Envelope(FencedBlock, i, body))
  {
    forall k: nat | k <= |s| ensures MatchAt(TaggedEnvelope, s, k).None? {
      TaggedAtNone(s, k);
    }
    FencedAtMeaning(s, i, body);
    assert MatchAt(FencedBlock, s, i).Some?;
    var m := Leftmost(FencedBlock, s, 0);
    var j := m.value.0;
    assert m.value.1 == [m.value.1[0]];
    FencedAtMeaning(s, j, m.value.1[0]);
    var sfx :| IsFencedMatch(s, j, sfx, m.value.1[0]);
  }

  /** Positions below `n` where TaggedAt finds nothing open no tagged envelope. */
  lemma NoTaggedBelow(s: string, n: nat)
    requires n <= |s| + 1
    requires forall k: nat :: k < n ==> MatchAt(TaggedEnvelope, s, k).None?
    ensures forall k: nat, b :: k < n ==> !IsTaggedMatch(s, k, b)
  {
    forall k: nat, b | k < n ensures !IsTaggedMatch(s, k, b) {
      assert MatchAt(TaggedEnvelope, s, k).None?;
      TaggedAtNone(s, k);
    }
  }

  /** Positions below `n` where FencedAt finds nothing open no fenced block. */
  lemma NoFencedBelow(s: string, n: nat)
    requires n <= |s| + 1
    requires forall k: nat :: k < n ==> MatchAt(FencedBlock, s, k).None?
    ensures forall k: nat, suffix, b :: k < n ==> !IsFencedMatch(s, k, suffix, b)
  {
    forall k: nat, suffix, b | k < n ensures !IsFencedMatch(s, k, suffix, b) {
      assert MatchAt(FencedBlock, s, k).None?;
      FencedAtNone(s, k);
    }
  }

  /** An envelope opened beyond the end of `s` does not exist. */
  lemma NoMatchPastEnd(s: string)
    ensures forall k: nat, b :: k > |s| ==> !IsTaggedMatch(s, k, b)
    ensures forall k: nat, suffix, b :: k > |s| ==> !IsFencedMatch(s, k, suffix, b)
  {
  }

  /**
   * A tagged envelope that FindEnvelope returns is a genuine match with no
   * earlier one; its body is lazy, so it never contains the closing tag.
   */
  lemma TaggedEnvelopeSound(s: string)
    requires FindEnvelope(s).Some? && FindEnvelope(s).value.pattern == TaggedEnvelope
    ensures var e := FindEnvelope(s).value;
      && IsTaggedMatch(s, e.start, e.body)
      && (forall k: nat, b :: k < e.start ==> !IsTaggedMatch(s, k, b))
      && !Contains(e.body, TagClose)
  {
    var e := FindEnvelope(s).value;
    var t := Leftmost(TaggedEnvelope, s, 0);
    assert t.Some? && t.value.0 == e.start && t.value.1 == [e.body];
    TaggedAtMeaning(s, e.start, e.body);
    NoTaggedBelow(s, e.start);
    LazyBody(s, e.start + |TagOpen|, e.body, TagClose);
  }

  /**
   * A fenced block that FindEnvelope returns is a genuine match with no
   * earlier one, there is no tagged envelope anywhere, and its body is lazy,
   * so it never contains "\n```".
   */
  lemma FencedEnvelopeSound(s: string)
    requires FindEnvelope(s).Some? && FindEnvelope(s).value.pattern == FencedBlock
    ensures var e := FindEnvelope(s).value;
      && (exists suffix :: IsFencedMatch(s, e.start, suffix, e.body))
      && (forall k: nat, suffix, b :: k < e.start ==> !IsFencedMatch(s, k, suffix, b))
      && (forall k: nat, b :: !IsTaggedMatch(s, k, b))
      && !Contains(e.body, FenceClose)
  {
    var e := FindEnvelope(s).value;
    NoTaggedBelow(s, |s| + 1);
    NoMatchPastEnd(s);
    FencedAtMeaning(s, e.start, e.body);
    NoFencedBelow(s, e.start);
    var suffix :| IsFencedMatch(s, e.start, suffix, e.body);
    FencedBodyLazy(s, e.start, suffix, e.body);
  }

  /** The body of a fenced match never contains "\n```". */
  lemma FencedBodyLazy(s: string, i: nat, suffix: string, body: string)
    requires IsFencedMatch(s, i, suffix, body)
    ensures !Contains(body, FenceClose)
  {
    LazyBody(s, i + |FenceOpen| + |suffix| + 1, body, FenceClose);
  }

  /** A body that no closing marker starts inside does not contain that marker. */
  lemma LazyBody(s: string, b: nat, body: string, close: string)
    requires |close| > 0
    requires b + |body| <= |s| && s[b..b + |body|] == body
    requires forall k: nat :: b <= k < b + |body| ==> !StartsAt(s, close, k)
    ensures !Contains(body, close)
  {
    forall i: nat | i <= |body| ensures !StartsAt(body, close, i) {
      if i + |close| <= |body| {
        assert !StartsAt(s, close, b + i);
        var inBody, inS := body[i..i + |close|], s[b + i..b + i + |close|];
        forall d | 0 <= d < |close| ensures inBody[d] == inS[d] {
          assert body[i + d] == s[b..b + |body|][i + d];
        }
        assert inBody == inS;
      }
    }
  }

  /** FindEnvelope finds nothing exactly when neither envelope pattern matches anywhere. */
  lemma EnvelopeComplete(s: string)
    ensures FindEnvelope(s).None? <==>
      (forall k: nat, b :: !IsTaggedMatch(s, k, b)) && (forall k: nat, suffix, b :: !IsFencedMatch(s, k, suffix, b))
  {
    var e := FindEnvelope(s);
    if e.None? {
      assert Leftmost(TaggedEnvelope, s, 0).None? && Leftmost(FencedBlock, s, 0).None?;
      NoTaggedBelow(s, |s| + 1);
      NoFencedBelow(s, |s| + 1);
      NoMatchPastEnd(s);
    } else if e.value.pattern == TaggedEnvelope {
      TaggedEnvelopeSound(s);
    } else {
      FencedEnvelopeSound(s);
      var suffix :| IsFencedMatch(s, e.value.start, suffix, e.value.body);
    }
  }

  /** Without an envelope the reply is a parse error, whatever bare call it holds. */
  lemma NoEnvelopeNoToolCall(s: string, isJson: string -> bool)
    requires forall k: nat, b :: !IsTaggedMatch(s, k, b)
    requires forall k: nat, suffix, b :: !IsFencedMatch(s, k, suffix, b)
    ensures ParseToolCalls(s, isJson) == ParseError
  {
    EnvelopeComplete(s);
  }

  /** A reply with no `<` and no backquote holds no envelope. */
  lemma NoMarkerCharsNoEnvelope(s: string)
    requires forall k :: 0 <= k < |s| ==> s[k] != '<' && s[k] != '`'
    ensures forall k: nat, b :: !IsTaggedMatch(s, k, b)
    ensures forall k: nat, suffix, b :: !IsFencedMatch(s, k, suffix, b)
  {
    forall k: nat, b ensures !IsTaggedMatch(s, k, b) {
      if k + |TagOpen| <= |s| { assert s[k..k + |TagOpen|][0] == s[k]; }
    }
    forall k: nat, suffix, b ensures !IsFencedMatch(s, k, suffix, b) {
      if k + |FenceOpen| <= |s| { assert s[k..k + |FenceOpen|][0] == s[k]; }
    }
  }

  /** The bare call `print(lookup_price(sku123))` alone is not a tool call. */
  lemma BareCallAloneIsParseError(isJson: string -> bool)
    ensures ParseToolCalls("print(lookup_price(sku123))", isJson) == ParseError
  {
    var s := "print(lookup_price(sku123))";
    NoMarkerCharsNoEnvelope(s);
    NoEnvelopeNoToolCall(s, isJson);
  }

  /**
   * A body json.Unmarshal accepts comes back as a generic value, never a list
   * of calls or a string map. This follows from how ParseToolCalls is
   * modelled: it encodes what Unmarshal does when decoding into an `any`
   * (it builds maps, slices and scalars, never a named Go type); it is not
   * derived from a model of JSON decoding.
   */
  lemma JsonBodyIsGeneric(s: string, isJson: string -> bool)
    requires FindEnvelope(s).Some? && isJson(FindEnvelope(s).value.body)
    ensures ParseToolCalls(s, isJson) == Decoded(JsonAny(FindEnvelope(s).value.body))
  {
  }

  /**
   * No input makes ParseToolCalls return a `[]ToolFunctionResponse`: the
   * JSON path yields what Unmarshal builds into an `any`, as encoded in
   * ParseToolCalls, and the fallback yields a `map[string]string`.
   */
  lemma NeverToolFunctionList(s: string, isJson: string -> bool)
    ensures ParseToolCalls(s, isJson).Decoded? ==> !ParseToolCalls(s, isJson).value.ToolFunctionList?
  {
  }

  /** The leftmost bare-call match is a genuine one, and no bare call matches before it. */
  lemma LeftmostBareCall(data: string)
    requires Leftmost(BareCall, data, 0).Some?
    ensures var m := Leftmost(BareCall, data, 0).value;
      && IsBareMatch(data, m.0, m.1[0], m.1[1])
      && forall k: nat, name, args :: k < m.0 ==> !IsBareMatch(data, k, name, args)
  {
    var m := Leftmost(BareCall, data, 0).value;
    assert m.1 == [m.1[0], m.1[1]];
    BareCallAtMeaning(data, m.0, m.1[0], m.1[1]);
    forall k: nat, name, args | k < m.0 ensures !IsBareMatch(data, k, name, args) {
      assert MatchAt(BareCall, data, k).None?;
      BareCallAtMeaning(data, k, name, args);
    }
  }

  /** The bare-call search finds nothing exactly when no call `name(args)` occurs anywhere. */
  lemma NoBareCall(data: string)
    ensures Leftmost(BareCall, data, 0).None? <==> forall p: nat, name, args :: !IsCallMatch(data, p, name, args)
  {
    var lm := Leftmost(BareCall, data, 0);
    if lm.Some? {
      var g := lm.value.1;
      assert g == [g[0], g[1]];
      BareCallAtMeaning(data, lm.value.0, g[0], g[1]);
      if StartsAt(data, PrintOpen, lm.value.0) && CallOpensAt(data, lm.value.0 + |PrintOpen|) {
        assert IsCallMatch(data, lm.value.0 + |PrintOpen|, g[0], g[1]);
      } else {
        assert IsCallMatch(data, lm.value.0, g[0], g[1]);
      }
    } else {
      forall p: nat, name, args ensures !IsCallMatch(data, p, name, args) {
        if p <= |data| {
          assert MatchAt(BareCall, data, p).None?;
          CallAtMeaning(data, p, name, args);
        }
      }
    }
  }

  /**
   * When the envelope body is not JSON: the result is an error exactly when
   * no call `name(args)` occurs anywhere in the body; otherwise a map with
   * exactly the keys func_name and args_json, holding the groups of the
   * leftmost bare-call match (the call after `print(` when there is one).
   */
  lemma BareCallFallback(s: string, isJson: string -> bool)
    requires FindEnvelope(s).Some? && !isJson(FindEnvelope(s).value.body)
    ensures var data := FindEnvelope(s).value.body;
      && (ParseToolCalls(s, isJson) == ParseError <==>
            forall p: nat, name, args :: !IsCallMatch(data, p, name, args))
      && (ParseToolCalls(s, isJson).Decoded? ==>
            && ParseToolCalls(s, isJson).value.StringMap?
            && var m := ParseToolCalls(s, isJson).value.entries;
            && m.Keys == {FuncNameKey, ArgsJsonKey}
            && exists p: nat :: p <= |data| && IsBareMatch(data, p, m[FuncNameKey], m[ArgsJsonKey])
                 && forall k: nat, name, args :: k < p ==> !IsBareMatch(data, k, name, args))
  {
    var data := FindEnvelope(s).value.body;
    NoBareCall(data);
    var lm := Leftmost(BareCall, data, 0);
    if lm.Some? {
      LeftmostBareCall(data);
      var m := map[FuncNameKey := lm.value.1[0], ArgsJsonKey := lm.value.1[1]];
      assert m.Keys == {FuncNameKey, ArgsJsonKey};
      assert m[FuncNameKey] == lm.value.1[0] && m[ArgsJsonKey] == lm.value.1[1];
    }
  }

  /** A body free of `<` between the two tags is found as the tagged envelope at 0. */
  lemma TaggedBodyFound(body: string)
    requires Lacks(body, '<')
    ensures FindEnvelope(TagOpen + body + TagClose) == Some(Envelope(TaggedEnvelope, 0, body))
  {
    var s := TagOpen + body + TagClose;
    var b := |TagOpen|;
    assert s[..b] == TagOpen;
    assert s[b..b + |body|] == body;
    assert s[b + |body|..b + |body| + |TagClose|] == TagClose;
    forall k: nat | b <= k < b + |body| ensures !StartsAt(s, TagClose, k) {
      assert s[k] == body[k - b] && body[k - b] != '<';
      if k + |TagClose| <= |s| {
        assert s[k..k + |TagClose|][0] == s[k] && TagClose[0] == '<';
      }
    }
    assert IsTaggedMatch(s, 0, body);
    TaggedEnvelopeFirst(s, 0, body);
  }

  /** The text `print(name(args))`. */
  function PrintedText(name: string, args: string): string {
    PrintOpen + name + "(" + args + ")" + ")"
  }

  /** `name(args)` written after `pre` is a call match at `|pre|`. */
  lemma CallMatchOfParts(pre: string, name: string, args: string, post: string)
    requires IsIdentifier(name) && Lacks(args, ')')
    ensures IsCallMatch(pre + name + "(" + args + ")" + post, |pre|, name, args)
  {
    var s := pre + name + "(" + args + ")" + post;
    var e := |pre| + |name|;
    assert s[|pre|..e] == name;
    assert s[e + 1..e + 1 + |args|] == args;
  }

  /** In `print(name(args))`, `print(` opens the text and the call after it has groups `name` and `args`. */
  lemma PrintedCall(name: string, args: string)
    requires IsIdentifier(name) && Lacks(args, ')')
    ensures StartsAt(PrintedText(name, args), PrintOpen, 0)
    ensures CallAt(PrintedText(name, args), |PrintOpen|) == Some([name, args])
  {
    var s := PrintedText(name, args);
    assert s[..|PrintOpen|] == PrintOpen;
    CallMatchOfParts(PrintOpen, name, args, ")");
    CallAtComplete(s, |PrintOpen|, name, args);
  }

  /**
   * In `print(name(args))` the only bare-call match at 0 is the call after
   * `print(`: never func_name "print" with args_json `name(args`.
   */
  lemma PrintPrefixPreferred(name: string, args: string, name': string, args': string)
    requires IsIdentifier(name) && Lacks(args, ')')
    ensures IsBareMatch(PrintedText(name, args), 0, name', args') <==> name' == name && args' == args
  {
    PrintedCall(name, args);
    BareCallAtMeaning(PrintedText(name, args), 0, name', args');
  }

  /**
   * Inside a tagged envelope, a non-JSON `print(name(args))` gives func_name
   * `name` and args_json `args` (for example "lookup_price" and "sku123").
   */
  lemma PrintedCallInEnvelope(name: string, args: string, isJson: string -> bool)
    requires IsIdentifier(name) && Lacks(args, ')') && Lacks(args, '<')
    requires !isJson(PrintedText(name, args))
    ensures ParseToolCalls(TagOpen + PrintedText(name, args) + TagClose, isJson)
         == Decoded(StringMap(map[FuncNameKey := name, ArgsJsonKey := args]))
  {
    var body := PrintedText(name, args);
    assert Lacks(PrintOpen, '<') && Lacks("(", '<') && Lacks(")", '<');
    assert Lacks(name, '<') by {
      forall k | 0 <= k < |name| ensures name[k] != '<' {
        assert IsIdentChar(name[k]);
      }
    }
    LacksConcat(PrintOpen, name, '<');
    LacksConcat(PrintOpen + name, "(", '<');
    LacksConcat(PrintOpen + name + "(", args, '<');
    LacksConcat(PrintOpen + name + "(" + args, ")", '<');
    LacksConcat(PrintOpen + name + "(" + args + ")", ")", '<');
    TaggedBodyFound(body);
    PrintedCall(name, args);
    assert MatchAt(BareCall, body, 0) == Some([name, args]);
  }
}
